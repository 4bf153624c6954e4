/**
 * The snapshot manager: before a refactoring writes files, copies of them go to
 * `.refactor-snapshot/` under the project root, listed in `meta.txt`; a restore copies them
 * back. The project root is the deepest directory common to the source paths. Paths are
 * modelled as sequences of names below the file-system root; the copying itself is not part
 * of this model, only which files are copied where.
 */
module SnapshotManager {
  import opened Common

  const SnapshotDirName: string := ".refactor-snapshot"
  const MetaFileName: string := "meta.txt"

  /** A name that can stand in a normalised absolute path. */
  predicate IsName(x: string) {
    x != "" && x != "." && x != ".." && '/' !in x
  }

  /** A path whose names hold no separator. */
  predicate Unslashed(c: seq<string>) {
    forall i :: 0 <= i < |c| ==> '/' !in c[i]
  }

  /** An absolute path in normal form, as a sequence of names below the root. */
  predicate Normalized(c: seq<string>) {
    forall i :: 0 <= i < |c| ==> IsName(c[i])
  }

  /** `Path.normalize()` of an absolute path: empty names and `.` vanish, `..` drops the name before it, and `..` at the root stays at the root. */
  function Normalize(c: seq<string>): (r: seq<string>)
    requires Unslashed(c)
    ensures Normalized(r)
  {
    if c == [] then []
    else
      var p := Normalize(c[..|c| - 1]);
      var x := c[|c| - 1];
      if x == "" || x == "." then p
      else if x == ".." then (if p == [] then [] else p[..|p| - 1])
      else p + [x]
  }

  /** A path in normal form normalises to itself, so normalising twice is normalising once. */
  lemma {:induction false} NormalizeKeepsNormal(c: seq<string>)
    requires Normalized(c)
    ensures Normalize(c) == c
  {
    if c != [] {
      NormalizeKeepsNormal(c[..|c| - 1]);
      assert c == c[..|c| - 1] + [c[|c| - 1]];
    }
  }

  /** A path whose names are neither empty nor hold a separator, with `.` and `..` kept as names. */
  predicate Clean(c: seq<string>) {
    forall i :: 0 <= i < |c| ==> c[i] != "" && '/' !in c[i]
  }

  /** The names that are not empty, in order: `java.io.File` drops repeated and trailing separators. */
  function DropEmpty(c: seq<string>): (r: seq<string>)
    requires Unslashed(c)
    ensures Clean(r)
  {
    if c == [] then []
    else DropEmpty(c[..|c| - 1]) + (if c[|c| - 1] == "" then [] else [c[|c| - 1]])
  }

  /**
   * `new File(path).getAbsoluteFile().toPath()`: a relative path is put below the working
   * directory, empty names vanish, and `.` and `..` stay.
   */
  function RawAbsolute(path: string, cwd: seq<string>): (r: seq<string>)
    requires Normalized(cwd)
    ensures Clean(r)
  {
    var names := Pieces(path, '/');
    DropEmpty(if StartsWith(path, "/") then names else cwd + names)
  }

  /** That path normalised, as `commonAncestor` and the file system read it. */
  function Absolute(path: string, cwd: seq<string>): (r: seq<string>)
    requires Normalized(cwd)
    ensures Normalized(r)
  {
    Normalize(RawAbsolute(path, cwd))
  }

  /** The text of an absolute path: `/` for the root, `/a/b` otherwise. */
  function PathText(c: seq<string>): (r: string)
    ensures |r| >= 1 && r[0] == '/'
  {
    "/" + Join(c, "/")
  }

  /** `new File(dir, rel)`: `rel` below the directory `dir`. */
  function InDirectory(dir: seq<string>, rel: string): (r: string)
    ensures StartsWith(r, PathText(dir))
  {
    if dir == [] then "/" + rel else PathText(dir) + "/" + rel
  }

  /** `getAbsolutePath()`: a relative path is put below the working directory, without normalising. */
  function AbsolutePathText(path: string, cwd: seq<string>): (r: string)
    ensures StartsWith(path, "/") ==> r == path
  {
    if StartsWith(path, "/") then path else InDirectory(cwd, path)
  }

  /** The longest path both `a` and `b` start with. */
  function CommonPrefix(a: seq<string>, b: seq<string>): (r: seq<string>)
    ensures r <= a && r <= b
    ensures |r| == |a| || |r| == |b| || a[|r|] != b[|r|]
  {
    if a == [] || b == [] || a[0] != b[0] then []
    else
      var t := CommonPrefix(a[1..], b[1..]);
      assert a == [a[0]] + a[1..] && b == [b[0]] + b[1..];
      [a[0]] + t
  }

  /** Every path both start with is a prefix of the common prefix: it is the longest. */
  lemma CommonPrefixLongest(a: seq<string>, b: seq<string>, p: seq<string>)
    requires p <= a && p <= b
    ensures p <= CommonPrefix(a, b)
  {
    var r := CommonPrefix(a, b);
    assert |p| <= |r|;
    assert forall i :: 0 <= i < |p| ==> p[i] == a[i] == r[i];
  }

  /**
   * `commonAncestor`: count the names both paths agree on, from the root down; no shared
   * name gives the root.
   */
  method CommonAncestor(a: seq<string>, b: seq<string>) returns (r: seq<string>)
    requires Unslashed(a) && Unslashed(b)
    ensures r == CommonPrefix(Normalize(a), Normalize(b))
  {
    var na := Normalize(a);
    var nb := Normalize(b);
    var min := if |na| < |nb| then |na| else |nb|;
    var i := 0;
    while i < min
      invariant 0 <= i <= min
      invariant na[..i] == nb[..i]
    {
      if na[i] != nb[i] {
        break;
      }
      i := i + 1;
    }
    CommonPrefixLongest(na, nb, na[..i]);
    r := na[..i];
  }

  /** The common ancestor of the first `n` paths, folded from the first. */
  function CommonOfAll(paths: seq<seq<string>>, n: nat): (r: seq<string>)
    requires 1 <= n <= |paths|
  {
    if n == 1 then paths[0] else CommonPrefix(CommonOfAll(paths, n - 1), paths[n - 1])
  }

  /** The fold is the longest path every one of the first `n` paths starts with. */
  lemma {:induction false} CommonOfAllLongest(paths: seq<seq<string>>, n: nat, p: seq<string>)
    requires 1 <= n <= |paths|
    ensures forall k :: 0 <= k < n ==> CommonOfAll(paths, n) <= paths[k]
    ensures (forall k :: 0 <= k < n ==> p <= paths[k]) ==> p <= CommonOfAll(paths, n)
  {
    if n > 1 {
      CommonOfAllLongest(paths, n - 1, p);
      var prev := CommonOfAll(paths, n - 1);
      var r := CommonOfAll(paths, n);
      forall k | 0 <= k < n ensures r <= paths[k] {
        if k < n - 1 {
          PrefixTrans(r, prev, paths[k]);
        }
      }
      if forall k :: 0 <= k < n ==> p <= paths[k] {
        CommonPrefixLongest(prev, paths[n - 1], p);
      }
    }
  }

  lemma PrefixTrans(a: seq<string>, b: seq<string>, c: seq<string>)
    requires a <= b && b <= c
    ensures a <= c
  {
    assert forall i :: 0 <= i < |a| ==> a[i] == b[i] == c[i];
  }

  /** The normalised form `commonAncestor` compares, of each of the given paths. */
  function AbsoluteAll(paths: seq<string>, cwd: seq<string>): (r: seq<seq<string>>)
    requires Normalized(cwd)
    ensures |r| == |paths|
    ensures forall i :: 0 <= i < |paths| ==> r[i] == Absolute(paths[i], cwd)
  {
    seq(|paths|, i requires 0 <= i < |paths| => Absolute(paths[i], cwd))
  }

  /**
   * What `determineProjectRoot` returns: the working directory for a `null` or empty
   * list; otherwise the fold of `commonAncestor` over the paths, or its parent when that is
   * a file. A single path is never passed to `commonAncestor`, so it keeps its `.` and `..`.
   */
  function ProjectRoot(sourcePaths: Option<seq<string>>, cwd: seq<string>, isFile: seq<string> -> bool): (r: seq<string>)
    requires Normalized(cwd)
    ensures Clean(r)
  {
    if sourcePaths.None? || sourcePaths.value == [] then cwd
    else
      var common := FoldedTo(sourcePaths.value, cwd, |sourcePaths.value|);
      if common != [] && isFile(Normalize(common)) then common[..|common| - 1] else common
  }

  /** Corrected: the single path is normalised like the others, so the root is in normal form. */
  function CorrectedProjectRoot(sourcePaths: Option<seq<string>>, cwd: seq<string>, isFile: seq<string> -> bool): (r: seq<string>)
    requires Normalized(cwd)
    ensures Normalized(r)
  {
    if sourcePaths.None? || sourcePaths.value == [] then cwd
    else
      var common := CommonOfAll(AbsoluteAll(sourcePaths.value, cwd), |sourcePaths.value|);
      CommonOfAllNormal(AbsoluteAll(sourcePaths.value, cwd), |sourcePaths.value|);
      if common != [] && isFile(common) then common[..|common| - 1] else common
  }

  lemma {:induction false} CommonOfAllNormal(paths: seq<seq<string>>, n: nat)
    requires 1 <= n <= |paths|
    requires forall k :: 0 <= k < |paths| ==> Normalized(paths[k])
    ensures Normalized(CommonOfAll(paths, n))
  {
    if n > 1 {
      CommonOfAllNormal(paths, n - 1);
    }
  }

  /** A path of names only is clean, and normalising it changes nothing. */
  lemma NormalizedClean(c: seq<string>)
    requires Normalized(c)
    ensures Clean(c) && Unslashed(c) && Normalize(c) == c
  {
    assert forall i :: 0 <= i < |c| ==> IsName(c[i]);
    NormalizeKeepsNormal(c);
  }

  /**
   * As written and corrected roots agree when there are several paths, or when the one
   * path given already is in normal form.
   */
  lemma ProjectRootAgrees(sourcePaths: seq<string>, cwd: seq<string>, isFile: seq<string> -> bool)
    requires Normalized(cwd) && sourcePaths != []
    ensures |sourcePaths| >= 2 || Normalized(RawAbsolute(sourcePaths[0], cwd)) ==>
      ProjectRoot(Some(sourcePaths), cwd, isFile) == CorrectedProjectRoot(Some(sourcePaths), cwd, isFile)
  {
    if |sourcePaths| >= 2 || Normalized(RawAbsolute(sourcePaths[0], cwd)) {
      FoldAgrees(sourcePaths, cwd);
    }
  }

  /** Under the same condition the fold is the corrected one, already in normal form. */
  lemma FoldAgrees(paths: seq<string>, cwd: seq<string>)
    requires Normalized(cwd) && paths != []
    requires |paths| >= 2 || Normalized(RawAbsolute(paths[0], cwd))
    ensures FoldedTo(paths, cwd, |paths|) == CommonOfAll(AbsoluteAll(paths, cwd), |paths|)
    ensures Normalize(FoldedTo(paths, cwd, |paths|)) == FoldedTo(paths, cwd, |paths|)
  {
    var all := AbsoluteAll(paths, cwd);
    if |paths| >= 2 {
      FoldedIsCommonOfAll(paths, cwd, |paths|);
      forall k | 0 <= k < |all| ensures Normalized(all[k]) {
        assert all[k] == Absolute(paths[k], cwd);
      }
      CommonOfAllNormal(all, |paths|);
    } else {
      NormalizedClean(RawAbsolute(paths[0], cwd));
      assert all[0] == Normalize(RawAbsolute(paths[0], cwd));
    }
    NormalizeKeepsNormal(CommonOfAll(all, |paths|));
  }

  /** Corrected: the project root lies above every source path. */
  lemma ProjectRootAboveSources(sourcePaths: seq<string>, cwd: seq<string>, isFile: seq<string> -> bool)
    requires Normalized(cwd) && sourcePaths != []
    ensures forall i :: 0 <= i < |sourcePaths| ==> CorrectedProjectRoot(Some(sourcePaths), cwd, isFile) <= Absolute(sourcePaths[i], cwd)
  {
    var all := AbsoluteAll(sourcePaths, cwd);
    var common := CommonOfAll(all, |sourcePaths|);
    CommonOfAllLongest(all, |sourcePaths|, []);
    forall i | 0 <= i < |sourcePaths| ensures CorrectedProjectRoot(Some(sourcePaths), cwd, isFile) <= Absolute(sourcePaths[i], cwd) {
      assert common <= all[i];
      if common != [] && isFile(common) {
        PrefixTrans(common[..|common| - 1], common, all[i]);
      }
    }
  }

  /**
   * Corrected: a file below the root is recorded by the names below the root, and the copy
   * put back under the root lands on the file again.
   */
  lemma CorrectedRootKeepsTree(sourcePaths: Option<seq<string>>, cwd: seq<string>, isFile: seq<string> -> bool, below: seq<string>)
    requires Normalized(cwd) && Normalized(below) && below != []
    ensures var root := CorrectedProjectRoot(sourcePaths, cwd, isFile);
      && ToRelativePathWithinProject(PathText(root + below), PathText(root)) == Join(below, "/")
      && InDirectory(root, Join(below, "/")) == PathText(root + below)
  {
    var root := CorrectedProjectRoot(sourcePaths, cwd, isFile);
    assert Normalized(root + below) by {
      forall i | 0 <= i < |root + below| ensures IsName((root + below)[i]) {
        if i < |root| {
          assert (root + below)[i] == root[i];
        } else {
          assert (root + below)[i] == below[i - |root|];
        }
      }
    }
    RelativeInsideRoot(root, below);
  }

  /**
   * As written, with the one source path `./src` and working directory `/w`, the root keeps
   * its `.`, so the file `/w/src/p/A.java` does not start with the root's text and is recorded
   * by its bare name, to be restored as `/w/./src/A.java`. The corrected root records `p/A.java`.
   */
  lemma DotSourcePathFlattens(isFile: seq<string> -> bool)
    requires !isFile(["w", "src"])
    ensures ProjectRoot(Some(["./src"]), ["w"], isFile) == ["w", ".", "src"]
    ensures ToRelativePathWithinProject("/w/src/p/A.java", PathText(["w", ".", "src"])) == "A.java"
    ensures InDirectory(["w", ".", "src"], "A.java") == "/w/./src/A.java"
    ensures CorrectedProjectRoot(Some(["./src"]), ["w"], isFile) == ["w", "src"]
    ensures ToRelativePathWithinProject("/w/src/p/A.java", PathText(["w", "src"])) == "p/A.java"
  {
    DotSourceNames();
    assert FoldedTo(["./src"], ["w"], 1) == ["w", ".", "src"];
    assert AbsoluteAll(["./src"], ["w"])[0] == ["w", "src"];
    DotSourceTexts();
  }

  /** The source path `./src` below `/w`, made absolute and then normalised. */
  lemma DotSourceNames()
    ensures RawAbsolute("./src", ["w"]) == ["w", ".", "src"]
    ensures Normalize(["w", ".", "src"]) == ["w", "src"]
  {
    DotSourcePieces();
    assert ["w"] + [".", "src"] == ["w", ".", "src"];
    DotSourceDropEmpty();
    DotSourceNormalize();
  }

  /** `./src` splits into `.` and `src`. */
  lemma DotSourcePieces()
    ensures Pieces("./src", '/') == [".", "src"]
  {
    PiecesWithoutSeparator("src", '/');
    assert "/src"[1..] == "src";
    assert Pieces("/src", '/') == ["", "src"];
    assert "./src"[1..] == "/src";
    var t := Pieces("/src", '/');
    assert t[0] == "" && t[1..] == ["src"];
    assert ['.'] + t[0] == ".";
  }

  /** None of `w`, `.` and `src` is empty, so all three stay. */
  lemma DotSourceDropEmpty()
    ensures DropEmpty(["w", ".", "src"]) == ["w", ".", "src"]
  {
    var c := ["w", ".", "src"];
    assert c[..2] == ["w", "."] && c[..2][..1] == ["w"] && ["w"][..0] == [];
    assert DropEmpty(["w"]) == ["w"];
    assert DropEmpty(["w", "."]) == ["w", "."];
  }

  /** `.` vanishes when `/w/./src` is normalised. */
  lemma DotSourceNormalize()
    ensures Normalize(["w", ".", "src"]) == ["w", "src"]
  {
    var c := ["w", ".", "src"];
    assert c[..2] == ["w", "."] && c[..2][..1] == ["w"] && ["w"][..0] == [];
    assert Normalize(["w"]) == ["w"];
    assert Normalize(["w", "."]) == ["w"];
  }

  /** The file `/w/src/p/A.java` against the root texts `/w/./src` and `/w/src`. */
  lemma DotSourceTexts()
    ensures PathText(["w", ".", "src"]) == "/w/./src"
    ensures PathText(["w", "src"]) == "/w/src"
    ensures ToRelativePathWithinProject("/w/src/p/A.java", "/w/./src") == "A.java"
    ensures InDirectory(["w", ".", "src"], "A.java") == "/w/./src/A.java"
    ensures ToRelativePathWithinProject("/w/src/p/A.java", "/w/src") == "p/A.java"
  {
    DotSourceRootTexts();
    DotRootMisses();
    NormalRootHits();
  }

  /** The file's text does not start with `/w/./src`, so only its name is kept. */
  lemma DotRootMisses()
    ensures ToRelativePathWithinProject("/w/src/p/A.java", "/w/./src") == "A.java"
  {
    DotSourceFileName();
    assert !StartsWith("/w/src/p/A.java", "/w/./src") by {
      assert "/w/src/p/A.java"[3] != "/w/./src"[3];
    }
  }

  /** The file's text starts with `/w/src/`, so the names below it are kept. */
  lemma NormalRootHits()
    ensures ToRelativePathWithinProject("/w/src/p/A.java", "/w/src") == "p/A.java"
  {
    assert StartsWith("/w/src/p/A.java", "/w/src");
    assert "/w/src/p/A.java"[6..] == "/p/A.java";
  }

  /** The texts of the two roots. */
  lemma DotSourceRootTexts()
    ensures PathText(["w", ".", "src"]) == "/w/./src"
    ensures PathText(["w", "src"]) == "/w/src"
  {
    assert Join(["src"], "/") == "src";
    assert ["w", ".", "src"][1..] == [".", "src"] && [".", "src"][1..] == ["src"];
    assert ["w", "src"][1..] == ["src"];
  }

  /** The name of the file `/w/src/p/A.java`. */
  lemma DotSourceFileName()
    ensures FileName("/w/src/p/A.java") == "A.java"
  {
    var f := "/w/src/p/A.java";
    assert f[|f| - 7] == '/';
    assert f[9..] == "A.java";
  }

  /**
   * The fold of `commonAncestor` over the first `i` paths: the first path as given to it,
   * then the common ancestor of the fold so far and the next path.
   */
  function FoldedTo(paths: seq<string>, cwd: seq<string>, i: nat): (r: seq<string>)
    requires Normalized(cwd) && 1 <= i <= |paths|
    ensures Clean(r) && Unslashed(r)
  {
    if i == 1 then RawAbsolute(paths[0], cwd)
    else
      var n := Normalize(FoldedTo(paths, cwd, i - 1));
      var c := CommonPrefix(n, Absolute(paths[i - 1], cwd));
      PrefixNormalized(c, n);
      NormalizedClean(c);
      c
  }

  /** A prefix of a path in normal form is in normal form. */
  lemma PrefixNormalized(p: seq<string>, c: seq<string>)
    requires p <= c && Normalized(c)
    ensures Normalized(p)
  {
    assert forall i :: 0 <= i < |p| ==> p[i] == c[i];
  }

  /** Past the first path the fold is the common prefix of the normalised paths. */
  lemma {:induction false} FoldedIsCommonOfAll(paths: seq<string>, cwd: seq<string>, i: nat)
    requires Normalized(cwd) && 2 <= i <= |paths|
    ensures FoldedTo(paths, cwd, i) == CommonOfAll(AbsoluteAll(paths, cwd), i)
  {
    var all := AbsoluteAll(paths, cwd);
    if i == 2 {
      assert all[0] == Normalize(RawAbsolute(paths[0], cwd));
    } else {
      FoldedIsCommonOfAll(paths, cwd, i - 1);
      forall k | 0 <= k < |all| ensures Normalized(all[k]) {
        assert all[k] == Absolute(paths[k], cwd);
      }
      CommonOfAllNormal(all, i - 1);
      NormalizeKeepsNormal(FoldedTo(paths, cwd, i - 1));
    }
  }

  /** The fold starts from the first path made absolute, not normalised. */
  lemma FoldedFirst(paths: seq<string>, cwd: seq<string>)
    requires Normalized(cwd) && paths != []
    ensures FoldedTo(paths, cwd, 1) == RawAbsolute(paths[0], cwd)
  {
  }

  /** One step of the fold: `commonAncestor` of the fold so far and the next path made absolute. */
  lemma CommonOfAllStep(paths: seq<string>, cwd: seq<string>, i: nat)
    requires Normalized(cwd) && 1 <= i < |paths|
    ensures Unslashed(RawAbsolute(paths[i], cwd))
    ensures FoldedTo(paths, cwd, i + 1)
            == CommonPrefix(Normalize(FoldedTo(paths, cwd, i)), Normalize(RawAbsolute(paths[i], cwd)))
  {
  }

  /** `determineProjectRoot`: the working directory for no paths, else the fold, cut back to its parent when it is a file. */
  method DetermineProjectRoot(sourcePaths: Option<seq<string>>, cwd: seq<string>, isFile: seq<string> -> bool)
    returns (root: seq<string>)
    requires Normalized(cwd)
    ensures root == ProjectRoot(sourcePaths, cwd, isFile)
  {
    if sourcePaths.None? || sourcePaths.value == [] {
      return cwd;
    }
    var common := CommonAncestorOfAll(sourcePaths.value, cwd);
    if common != [] && isFile(Normalize(common)) {
      root := common[..|common| - 1];
    } else {
      root := common;
    }
  }

  /** The loop of `determineProjectRoot`: `commonAncestor` folded over the absolute paths. */
  method CommonAncestorOfAll(paths: seq<string>, cwd: seq<string>) returns (common: seq<string>)
    requires Normalized(cwd) && paths != []
    ensures common == FoldedTo(paths, cwd, |paths|)
  {
    common := RawAbsolute(paths[0], cwd);
    FoldedFirst(paths, cwd);
    var i := 1;
    while i < |paths|
      invariant 1 <= i <= |paths|
      invariant common == FoldedTo(paths, cwd, i)
    {
      common := FoldNext(paths, cwd, i, common);
      i := i + 1;
    }
    assert i == |paths|;
  }

  /** One turn of that loop: `commonAncestor` of the fold so far and the next path. */
  method FoldNext(paths: seq<string>, cwd: seq<string>, i: nat, common: seq<string>) returns (next: seq<string>)
    requires Normalized(cwd) && 1 <= i < |paths| && common == FoldedTo(paths, cwd, i)
    ensures next == FoldedTo(paths, cwd, i + 1)
  {
    var p := RawAbsolute(paths[i], cwd);
    CommonOfAllStep(paths, cwd, i);
    next := CommonAncestor(common, p);
  }

  /**
   * `toRelativePathWithinProject`: when the file's absolute path starts with the root's,
   * the rest without one leading separator; otherwise only the file's name. The test is
   * on the text, not on whole names.
   */
  function ToRelativePathWithinProject(filePath: string, rootPath: string): (r: string)
    ensures StartsWith(filePath, rootPath) && StartsWith(filePath[|rootPath|..], "/") ==> r == filePath[|rootPath| + 1..]
    ensures StartsWith(filePath, rootPath) && !StartsWith(filePath[|rootPath|..], "/") ==> r == filePath[|rootPath|..]
    ensures !StartsWith(filePath, rootPath) ==> r == FileName(filePath)
  {
    if StartsWith(filePath, rootPath) then
      var rel := filePath[|rootPath|..];
      if StartsWith(rel, "/") then rel[1..] else rel
    else FileName(filePath)
  }

  /** Joining two non-empty runs of names. */
  lemma {:induction false} JoinAppend(a: seq<string>, b: seq<string>, sep: string)
    requires a != [] && b != []
    ensures Join(a + b, sep) == Join(a, sep) + sep + Join(b, sep)
  {
    if |a| == 1 {
      assert (a + b)[1..] == b;
    } else {
      JoinAppend(a[1..], b, sep);
      assert (a + b)[1..] == a[1..] + b;
    }
  }

  /** A name of a normalised path does not start with a separator, so neither does their join. */
  lemma JoinNamesHead(s: seq<string>)
    requires s != [] && Normalized(s)
    ensures Join(s, "/") != [] && Join(s, "/")[0] != '/'
  {
    assert IsName(s[0]);
    if |s| > 1 {
      assert Join(s, "/") == s[0] + "/" + Join(s[1..], "/");
    }
  }

  /**
   * A file below the root gets the names below the root as its relative path, and the
   * copy put back under the root lands on the file again.
   */
  lemma RelativeInsideRoot(root: seq<string>, below: seq<string>)
    requires Normalized(root + below) && below != []
    ensures ToRelativePathWithinProject(PathText(root + below), PathText(root)) == Join(below, "/")
    ensures InDirectory(root, Join(below, "/")) == PathText(root + below)
  {
    assert Normalized(below) by {
      assert forall i :: 0 <= i < |below| ==> below[i] == (root + below)[|root| + i];
    }
    JoinNamesHead(below);
    if root == [] {
      assert root + below == below;
      RelativeBelowFileSystemRoot(below);
    } else {
      var jr, jb := Join(root, "/"), Join(below, "/");
      JoinAppend(root, below, "/");
      assert PathText(root + below) == "/" + (jr + "/" + jb);
      AppendAssoc("/", jr + "/", jb);
      AppendAssoc("/", jr, "/");
      assert PathText(root + below) == PathText(root) + "/" + jb;
      RelativeBelowDirectory(PathText(root), jb);
    }
  }

  lemma RelativeBelowFileSystemRoot(below: seq<string>)
    requires Join(below, "/") != [] && Join(below, "/")[0] != '/'
    ensures ToRelativePathWithinProject(PathText(below), PathText([])) == Join(below, "/")
  {
    var f := PathText(below);
    assert PathText([]) == "/";
    assert StartsWith(f, "/");
    assert f[1..] == Join(below, "/");
    assert !StartsWith(f[1..], "/");
  }

  lemma RelativeBelowDirectory(rt: string, rel: string)
    ensures ToRelativePathWithinProject(rt + "/" + rel, rt) == rel
  {
    var f := rt + "/" + rel;
    assert f[..|rt|] == rt;
    assert f[|rt|..] == "/" + rel;
    assert f[|rt| + 1..] == rel;
  }

  /** Lines as `readAllLines` splits them at `\n`; a final `\n` ends the last line. */
  function ReadAllLines(text: string): (r: seq<string>)
    decreases |text|
  {
    if text == [] then []
    else
      var k := LineEnd(text, 0);
      [text[..k]] + (if k < |text| then ReadAllLines(text[k + 1..]) else [])
  }

  /** The index of the first `\n` at or after `from`, or the length of the text. */
  function LineEnd(text: string, from: nat): (r: nat)
    requires from <= |text|
    ensures from <= r <= |text|
    ensures r < |text| ==> text[r] == '\n'
    ensures forall i :: from <= i < r ==> text[i] != '\n'
    decreases |text| - from
  {
    if from == |text| || text[from] == '\n' then from else LineEnd(text, from + 1)
  }

  /** Each line followed by `\n`, as the meta file is written. */
  function Unlines(lines: seq<string>): (r: string)
  {
    if lines == [] then [] else lines[0] + "\n" + Unlines(lines[1..])
  }

  lemma {:induction false} UnlinesAppend(lines: seq<string>, x: string)
    ensures Unlines(lines + [x]) == Unlines(lines) + x + "\n"
  {
    if lines != [] {
      UnlinesAppend(lines[1..], x);
      assert (lines + [x])[1..] == lines[1..] + [x];
    }
  }

  /** Reading back what was written with one `\n` per line gives the lines, when none holds a `\n`. */
  lemma {:induction false} ReadAllLinesUnlines(lines: seq<string>)
    requires forall i :: 0 <= i < |lines| ==> '\n' !in lines[i]
    ensures ReadAllLines(Unlines(lines)) == lines
  {
    if lines != [] {
      var t := Unlines(lines);
      var l := lines[0];
      assert t == l + "\n" + Unlines(lines[1..]);
      LineEndAt(t, l);
      assert t[..|l|] == l;
      assert t[|l| + 1..] == Unlines(lines[1..]);
      ReadAllLinesUnlines(lines[1..]);
    }
  }

  lemma LineEndAt(t: string, l: string)
    requires StartsWith(t, l + "\n") && '\n' !in l
    ensures LineEnd(t, 0) == |l|
  {
    assert t[|l|] == '\n';
    assert forall i :: 0 <= i < |l| ==> t[i] == l[i] && t[i] != '\n';
  }

  /** The lines of `meta.txt`: the timestamp, the count, then one relative path per copied file. */
  function MetaLines(timestamp: string, count: nat, copied: seq<string>): (r: seq<string>)
    ensures |r| == 2 + |copied| && r[2..] == copied
  {
    ["timestamp=" + timestamp, "count=" + NatText(count)] + copied
  }

  /** The snapshot directory as the disk holds it: where it is (`None` when there is none), its `meta.txt`, and the relative paths copied into it. */
  class SnapshotStore {
    var location: Option<seq<string>>
    var meta: Option<string>
    var copies: set<string>

    constructor ()
      ensures location.None? && meta.None? && copies == {}
    {
      location := None;
      meta := None;
      copies := {};
    }
  }

  /** Whether `saveSnapshot` copies a listed file: it is not `null` and is an existing regular file. */
  predicate Copies(filePath: Option<string>, cwd: seq<string>, isFile: seq<string> -> bool)
    requires Normalized(cwd)
  {
    filePath.Some? && isFile(Absolute(filePath.value, cwd))
  }

  /** The relative paths `saveSnapshot` copies the first `n` listed files to, in order. */
  function CopiedFiles(files: seq<Option<string>>, n: nat, root: seq<string>, cwd: seq<string>, isFile: seq<string> -> bool): (r: seq<string>)
    requires n <= |files| && Normalized(cwd)
    ensures |r| <= n
  {
    if n == 0 then []
    else
      var prev := CopiedFiles(files, n - 1, root, cwd, isFile);
      var f := files[n - 1];
      if Copies(f, cwd, isFile)
      then prev + [ToRelativePathWithinProject(AbsolutePathText(f.value, cwd), PathText(root))]
      else prev
  }

  /**
   * `saveSnapshot`: nothing happens for a `null` or empty list. Otherwise the snapshot
   * directory of the project root replaces the old one: it holds a copy of every listed
   * regular file and a `meta.txt` with the timestamp, the number of files requested
   * (skipped ones included) and the relative path of each copy.
   */
  method SaveSnapshot(store: SnapshotStore, filesAboutToChange: Option<seq<Option<string>>>,
                      sourcePaths: Option<seq<string>>, cwd: seq<string>, isFile: seq<string> -> bool, timestamp: string)
    requires Normalized(cwd)
    modifies store
    ensures filesAboutToChange.None? || filesAboutToChange.value == [] ==>
      store.location == old(store.location) && store.meta == old(store.meta) && store.copies == old(store.copies)
    ensures filesAboutToChange.Some? && filesAboutToChange.value != [] ==>
      var files := filesAboutToChange.value;
      var root := ProjectRoot(sourcePaths, cwd, isFile);
      var copied := CopiedFiles(files, |files|, root, cwd, isFile);
      && store.location == Some(root + [SnapshotDirName])
      && store.meta == Some(Unlines(MetaLines(timestamp, |files|, copied)))
      && store.copies == NameSet(copied)
  {
    if filesAboutToChange.None? || filesAboutToChange.value == [] {
      return;
    }
    var files := filesAboutToChange.value;
    var root := DetermineProjectRoot(sourcePaths, cwd, isFile);
    store.location := Some(root + [SnapshotDirName]);
    store.copies := {};
    var metaContent := CopyListed(store, files, root, cwd, isFile, timestamp);
    store.meta := Some(metaContent);
  }

  /** The copy loop of `saveSnapshot`: copies each listed regular file and writes its line of `meta.txt`. */
  method CopyListed(store: SnapshotStore, files: seq<Option<string>>, root: seq<string>, cwd: seq<string>,
                    isFile: seq<string> -> bool, timestamp: string)
    returns (metaContent: string)
    requires Normalized(cwd)
    modifies store
    ensures metaContent == Unlines(MetaLines(timestamp, |files|, CopiedFiles(files, |files|, root, cwd, isFile)))
    ensures store.copies == NameSet(CopiedFiles(files, |files|, root, cwd, isFile))
    ensures store.location == old(store.location) && store.meta == old(store.meta)
  {
    store.copies := {};
    metaContent := "timestamp=" + timestamp + "\n" + "count=" + NatText(|files|) + "\n";
    assert metaContent == Unlines(MetaLines(timestamp, |files|, [])) by {
      var m := MetaLines(timestamp, |files|, []);
      assert m[1..][1..] == [];
      assert Unlines(m[1..]) == m[1] + "\n";
    }
    var i := 0;
    while i < |files|
      invariant 0 <= i <= |files|
      invariant metaContent == Unlines(MetaLines(timestamp, |files|, CopiedFiles(files, i, root, cwd, isFile)))
      invariant store.copies == NameSet(CopiedFiles(files, i, root, cwd, isFile))
      invariant store.location == old(store.location) && store.meta == old(store.meta)
    {
      metaContent := CopyOne(store, files, i, root, cwd, isFile, timestamp, metaContent);
      i := i + 1;
    }
  }

  /** One turn of the copy loop: a listed regular file is copied and gets its line in `meta.txt`. */
  method CopyOne(store: SnapshotStore, files: seq<Option<string>>, i: nat, root: seq<string>, cwd: seq<string>,
                 isFile: seq<string> -> bool, timestamp: string, metaBefore: string)
    returns (metaContent: string)
    requires i < |files| && Normalized(cwd)
    requires metaBefore == Unlines(MetaLines(timestamp, |files|, CopiedFiles(files, i, root, cwd, isFile)))
    requires store.copies == NameSet(CopiedFiles(files, i, root, cwd, isFile))
    modifies store
    ensures metaContent == Unlines(MetaLines(timestamp, |files|, CopiedFiles(files, i + 1, root, cwd, isFile)))
    ensures store.copies == NameSet(CopiedFiles(files, i + 1, root, cwd, isFile))
    ensures store.location == old(store.location) && store.meta == old(store.meta)
  {
    var filePath := files[i];
    ghost var prev := CopiedFiles(files, i, root, cwd, isFile);
    CopiedStep(files, i, root, cwd, isFile, timestamp);
    metaContent := metaBefore;
    if filePath.Some? && isFile(Absolute(filePath.value, cwd)) {
      var rel := ToRelativePathWithinProject(AbsolutePathText(filePath.value, cwd), PathText(root));
      assert CopiedFiles(files, i + 1, root, cwd, isFile) == prev + [rel];
      store.copies := store.copies + {rel};
      metaContent := metaContent + rel + "\n";
    }
  }

  /** One listed file: a copied one adds its relative path to the copies and a line to `meta.txt`. */
  lemma CopiedStep(files: seq<Option<string>>, i: nat, root: seq<string>, cwd: seq<string>,
                   isFile: seq<string> -> bool, timestamp: string)
    requires i < |files| && Normalized(cwd)
    ensures var prev := CopiedFiles(files, i, root, cwd, isFile);
      var f := files[i];
      if Copies(f, cwd, isFile) then
        var rel := ToRelativePathWithinProject(AbsolutePathText(f.value, cwd), PathText(root));
        && CopiedFiles(files, i + 1, root, cwd, isFile) == prev + [rel]
        && Unlines(MetaLines(timestamp, |files|, prev + [rel])) == Unlines(MetaLines(timestamp, |files|, prev)) + rel + "\n"
        && NameSet(prev + [rel]) == NameSet(prev) + {rel}
      else CopiedFiles(files, i + 1, root, cwd, isFile) == prev
  {
    var prev := CopiedFiles(files, i, root, cwd, isFile);
    var f := files[i];
    if Copies(f, cwd, isFile) {
      var rel := ToRelativePathWithinProject(AbsolutePathText(f.value, cwd), PathText(root));
      assert MetaLines(timestamp, |files|, prev + [rel]) == MetaLines(timestamp, |files|, prev) + [rel];
      UnlinesAppend(MetaLines(timestamp, |files|, prev), rel);
    }
  }

  /** As written: the first line without `=`, so every leading line holding `=` is taken for a header. */
  function FirstEntryAsWritten(lines: seq<string>, from: nat): (r: nat)
    requires from <= |lines|
    ensures from <= r <= |lines|
    ensures forall i :: from <= i < r ==> '=' in lines[i]
    ensures r < |lines| ==> '=' !in lines[r]
    decreases |lines| - from
  {
    if from == |lines| || '=' !in lines[from] then from else FirstEntryAsWritten(lines, from + 1)
  }

  /** The lines from `from` on whose trimmed text is not empty and has a copy in the snapshot, trimmed, in order. */
  function RestoredFrom(lines: seq<string>, from: nat, copies: set<string>): seq<string>
    requires from <= |lines|
    decreases |lines| - from
  {
    if from == |lines| then []
    else
      var rel := Trim(lines[from]);
      (if rel != [] && rel in copies then [rel] else []) + RestoredFrom(lines, from + 1, copies)
  }

  /** Only copies the snapshot holds are restored, and never from an empty line. */
  lemma {:induction false} RestoredMembers(lines: seq<string>, from: nat, copies: set<string>)
    requires from <= |lines|
    ensures forall x :: x in RestoredFrom(lines, from, copies) ==> x in copies && x != []
    decreases |lines| - from
  {
    if from < |lines| {
      RestoredMembers(lines, from + 1, copies);
      var rel := Trim(lines[from]);
      var head := if rel != [] && rel in copies then [rel] else [];
      assert RestoredFrom(lines, from, copies) == head + RestoredFrom(lines, from + 1, copies);
      assert forall x :: x in head ==> x in copies && x != [];
    }
  }

  /**
   * `restoreSnapshot`: `false` when the project root has no snapshot directory or no
   * `meta.txt`. Otherwise the two header lines are skipped (corrected: the source skips
   * every leading line holding `=`, see `FirstEntryAsWritten`), every later line naming a
   * copy is restored, and the answer is whether at least one was.
   */
  method RestoreSnapshot(store: SnapshotStore, sourcePaths: Option<seq<string>>, cwd: seq<string>, isFile: seq<string> -> bool)
    returns (ok: bool, restored: seq<string>)
    requires Normalized(cwd)
    ensures var root := ProjectRoot(sourcePaths, cwd, isFile);
      store.location != Some(root + [SnapshotDirName]) || store.meta.None? ==> !ok && restored == []
    ensures var root := ProjectRoot(sourcePaths, cwd, isFile);
      store.location == Some(root + [SnapshotDirName]) && store.meta.Some? ==>
        var lines := ReadAllLines(store.meta.value);
        restored == RestoredFrom(lines, FirstEntry(lines), store.copies) && (ok <==> restored != [])
  {
    var root := DetermineProjectRoot(sourcePaths, cwd, isFile);
    if store.location != Some(root + [SnapshotDirName]) || store.meta.None? {
      return false, [];
    }
    var lines := ReadAllLines(store.meta.value);
    restored := RestoreEntries(lines, FirstEntry(lines), store.copies);
    ok := |restored| > 0;
  }

  /** The second loop of `restoreSnapshot`: the entries from `start` on that have a copy. */
  method RestoreEntries(lines: seq<string>, start: nat, copies: set<string>) returns (restored: seq<string>)
    requires start <= |lines|
    ensures restored == RestoredFrom(lines, start, copies)
  {
    var i := |lines|;
    restored := [];
    assert restored == RestoredFrom(lines, i, copies);
    while i != start
      invariant start <= i <= |lines|
      invariant restored == RestoredFrom(lines, i, copies)
      decreases i
    {
      restored := RestoreLine(lines, i - 1, copies, restored);
      i := i - 1;
    }
  }

  /** One line of the second loop, read back to front: its entry goes in front when it names a copy. */
  method RestoreLine(lines: seq<string>, i: nat, copies: set<string>, after: seq<string>) returns (restored: seq<string>)
    requires i < |lines| && after == RestoredFrom(lines, i + 1, copies)
    ensures restored == RestoredFrom(lines, i, copies)
  {
    var rel := Trim(lines[i]);
    RestoredStep(lines, i, copies);
    restored := after;
    if rel != [] && rel in copies {
      restored := [rel] + restored;
    }
  }

  /** One line of the walk: it adds its trimmed text in front, when that names a copy. */
  lemma RestoredStep(lines: seq<string>, i: nat, copies: set<string>)
    requires i < |lines|
    ensures var rel := Trim(lines[i]);
      RestoredFrom(lines, i, copies)
      == if rel != [] && rel in copies then [rel] + RestoredFrom(lines, i + 1, copies) else RestoredFrom(lines, i + 1, copies)
  {
    assert [] + RestoredFrom(lines, i + 1, copies) == RestoredFrom(lines, i + 1, copies);
  }

  /** Lines fit for the meta file: no `\n`, nothing trimmed away, not empty. */
  predicate IsEntry(rel: string) {
    '\n' !in rel && Trim(rel) == rel && rel != []
  }

  /** The entries from `from` on are exactly the copies listed, when every one of them is in the snapshot. */
  lemma {:induction false} RestoredAll(lines: seq<string>, from: nat, copies: set<string>)
    requires from <= |lines|
    requires forall i :: from <= i < |lines| ==> IsEntry(lines[i]) && lines[i] in copies
    ensures RestoredFrom(lines, from, copies) == lines[from..]
    decreases |lines| - from
  {
    if from < |lines| {
      RestoredAll(lines, from + 1, copies);
      DropOne(lines, from);
    }
  }

  /** The header written to the meta file always holds `=`, and no `\n` when the timestamp has none. */
  lemma MetaHeader(timestamp: string, count: nat, copied: seq<string>)
    requires '\n' !in timestamp
    ensures var m := MetaLines(timestamp, count, copied);
      '=' in m[0] && '=' in m[1] && '\n' !in m[0] && '\n' !in m[1]
  {
    var m := MetaLines(timestamp, count, copied);
    assert m[0][9] == '=';
    assert m[1][5] == '=';
    NatTextDigits(count);
    assert forall i :: 0 <= i < |m[1]| ==> m[1][i] != '\n' by {
      forall i | 0 <= i < |m[1]| ensures m[1][i] != '\n' {
        if i >= 6 {
          assert m[1][i] == NatText(count)[i - 6];
        }
      }
    }
  }

  lemma {:induction false} NatTextDigits(n: nat)
    ensures forall i :: 0 <= i < |NatText(n)| ==> '0' <= NatText(n)[i] <= '9'
  {
    if n >= 10 {
      NatTextDigits(n / 10);
    }
  }

  /** Reading the meta file back gives the header and then the copied paths. */
  lemma MetaReadsBack(timestamp: string, count: nat, copied: seq<string>)
    requires '\n' !in timestamp
    requires forall i :: 0 <= i < |copied| ==> IsEntry(copied[i])
    ensures ReadAllLines(Unlines(MetaLines(timestamp, count, copied))) == MetaLines(timestamp, count, copied)
  {
    var m := MetaLines(timestamp, count, copied);
    MetaHeader(timestamp, count, copied);
    forall i | 0 <= i < |m| ensures '\n' !in m[i] {
      if i >= 2 {
        assert m[i] == copied[i - 2];
      }
    }
    ReadAllLinesUnlines(m);
  }

  /** Restoring from the lines saved puts back every copied file when no relative path holds `=`. */
  lemma SaveThenRestore(timestamp: string, count: nat, copied: seq<string>)
    requires '\n' !in timestamp
    requires forall i :: 0 <= i < |copied| ==> IsEntry(copied[i]) && '=' !in copied[i]
    ensures var m := MetaLines(timestamp, count, copied);
      RestoredFrom(m, FirstEntryAsWritten(m, 0), NameSet(copied)) == copied
  {
    var m := MetaLines(timestamp, count, copied);
    MetaHeader(timestamp, count, copied);
    assert FirstEntryAsWritten(m, 2) == 2 by {
      if copied != [] {
        assert m[2] == copied[0];
      }
    }
    assert FirstEntryAsWritten(m, 0) == 2 by {
      assert FirstEntryAsWritten(m, 0) == FirstEntryAsWritten(m, 1) == FirstEntryAsWritten(m, 2);
    }
    RestoredAll(m, 2, NameSet(copied));
  }

  /**
   * As written, a snapshot whose copied paths all hold `=` restores nothing and answers
   * `false`, although every file was copied.
   */
  lemma RestoreSkipsEntriesWithEquals(timestamp: string, count: nat, copied: seq<string>)
    requires '\n' !in timestamp && copied != []
    requires forall i :: 0 <= i < |copied| ==> '=' in copied[i]
    ensures var m := MetaLines(timestamp, count, copied);
      RestoredFrom(m, FirstEntryAsWritten(m, 0), NameSet(copied)) == []
  {
    var m := MetaLines(timestamp, count, copied);
    MetaHeader(timestamp, count, copied);
    assert forall i :: 2 <= i < |m| ==> m[i] == copied[i - 2];
    assert FirstEntryAsWritten(m, 0) == |m| by {
      FirstEntryAllEquals(m, 0);
    }
  }

  lemma {:induction false} FirstEntryAllEquals(lines: seq<string>, from: nat)
    requires from <= |lines|
    requires forall i :: from <= i < |lines| ==> '=' in lines[i]
    ensures FirstEntryAsWritten(lines, from) == |lines|
    decreases |lines| - from
  {
    if from < |lines| {
      FirstEntryAllEquals(lines, from + 1);
    }
  }

  /** Corrected: the two header lines are skipped, and no other. */
  function FirstEntry(lines: seq<string>): (r: nat)
    ensures r <= |lines|
    ensures |lines| >= 2 ==> r == 2
  {
    if |lines| < 2 then |lines| else 2
  }

  /** With the header skipped by position, restoring what was saved puts back every copied file, whatever its name. */
  lemma SaveThenRestoreCorrected(timestamp: string, count: nat, copied: seq<string>)
    requires '\n' !in timestamp
    requires forall i :: 0 <= i < |copied| ==> IsEntry(copied[i])
    ensures var m := MetaLines(timestamp, count, copied);
      RestoredFrom(m, FirstEntry(m), NameSet(copied)) == copied
  {
    var m := MetaLines(timestamp, count, copied);
    RestoredAll(m, 2, NameSet(copied));
  }
}
