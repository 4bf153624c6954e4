/**
 * The code generator's decisions: which classes a pull-up touched and so are written back,
 * where each one is written, and the clean-up of `@Override` glued to a modifier.
 * Printing the classes and writing the files are not part of this model.
 */
module CodeGenerator {
  import opened Common
  import opened JavaModel

  /** A method that the visibility pass may have touched: `@Override`, or `public` on a method not named like its class. */
  predicate ShowsModification(m: Method, simpleName: string) {
    HasOverride(m) || (Public in m.modifiers && m.name != simpleName)
  }

  /** `hasMethodModifications`: some method of the class shows a modification. */
  predicate HasMethodModifications(methods: seq<Method>, simpleName: string) {
    exists i :: 0 <= i < |methods| && ShowsModification(methods[i], simpleName)
  }

  /** `hasMethodModifications` as the early-return scan over the class's methods. */
  method CheckMethodModifications(methods: seq<Method>, simpleName: string) returns (r: bool)
    ensures r <==> HasMethodModifications(methods, simpleName)
  {
    var i := 0;
    while i < |methods|
      invariant 0 <= i <= |methods|
      invariant forall j :: 0 <= j < i ==> !ShowsModification(methods[j], simpleName)
    {
      var m := methods[i];
      if HasOverride(m) {
        return true;
      }
      if Public in m.modifiers && m.name != simpleName {
        return true;
      }
      i := i + 1;
    }
    return false;
  }

  /** The classes of `ds` other than `child` in which some method shows a modification. */
  function TouchedAmong(h: Hierarchy, s: State, child: nat, ds: seq<nat>): (r: set<nat>)
    requires |s| == |h|
    ensures forall c :: c in r <==> c in ds && c < |h| && c != child && HasMethodModifications(s[c].methods, h[c].simpleName)
  {
    if ds == [] then {}
    else
      var d := ds[|ds| - 1];
      assert forall c :: c in ds <==> c in ds[..|ds| - 1] || c == d;
      TouchedAmong(h, s, child, ds[..|ds| - 1])
      + (if d < |h| && d != child && HasMethodModifications(s[d].methods, h[d].simpleName) then {d} else {})
  }

  /** The classes written back after pulling a method from `child` up to `parent`. */
  function ModifiedClasses(h: Hierarchy, s: State, child: nat, parent: nat): set<nat>
    requires Acyclic(h) && |s| == |h|
  {
    {child, parent} + TouchedAmong(h, s, child, Descendants(h, parent))
  }

  lemma ModifiedClassesMembers(h: Hierarchy, s: State, child: nat, parent: nat)
    requires Acyclic(h) && |s| == |h|
    ensures forall c: nat :: c in ModifiedClasses(h, s, child, parent) <==>
      c == child || c == parent
      || (IsClass(h, c) && IsStrictAncestor(h, parent, c) && c != child
          && HasMethodModifications(s[c].methods, h[c].simpleName))
  {
    var ds := Descendants(h, parent);
    forall c: nat | c in ds ensures IsClass(h, c) {
      var i :| 0 <= i < |ds| && ds[i] == c;
    }
  }

  /**
   * `collectModifiedClasses`: the origin and the destination, and every other descendant of the
   * destination in which some method shows a modification.
   */
  method CollectModifiedClasses(h: Hierarchy, s: State, child: nat, parent: nat) returns (r: set<nat>)
    requires Acyclic(h) && |s| == |h|
    ensures child in r && parent in r
    ensures forall c: nat :: c in r <==>
      c == child || c == parent
      || (IsClass(h, c) && IsStrictAncestor(h, parent, c) && c != child
          && HasMethodModifications(s[c].methods, h[c].simpleName))
    ensures r == ModifiedClasses(h, s, child, parent)
  {
    ModifiedClassesMembers(h, s, child, parent);
    var touched := TouchedClasses(h, s, child, Descendants(h, parent));
    r := {child, parent} + touched;
  }

  /** The loop of `collectModifiedClasses` over the descendants. */
  method TouchedClasses(h: Hierarchy, s: State, child: nat, ds: seq<nat>) returns (r: set<nat>)
    requires |s| == |h|
    ensures r == TouchedAmong(h, s, child, ds)
  {
    r := {};
    var i := 0;
    while i < |ds|
      invariant 0 <= i <= |ds|
      invariant r == TouchedAmong(h, s, child, ds[..i])
    {
      var d := ds[i];
      assert ds[..i + 1][..i] == ds[..i];
      assert ds[..i + 1][i] == d;
      if d < |h| && d != child {
        var touched := CheckMethodModifications(s[d].methods, h[d].simpleName);
        if touched {
          r := r + {d};
        }
      }
      i := i + 1;
    }
    assert ds[..i] == ds;
  }

  /** The source files of the given classes, for those that have one, in order. */
  function FilesOf(h: Hierarchy, classes: seq<nat>): (r: seq<string>)
    ensures |r| <= |classes|
    ensures forall c :: c in classes && c < |h| && h[c].file.Some? ==> h[c].file.value in r
  {
    if classes == [] then []
    else
      var last := classes[|classes| - 1];
      var prev := FilesOf(h, classes[..|classes| - 1]);
      assert forall c :: c in classes ==> c in classes[..|classes| - 1] || c == last;
      prev + (if last < |h| && h[last].file.Some? then [h[last].file.value] else [])
  }

  /**
   * `getOriginalFilePathsForModifiedClasses`: the source file of every modified class that
   * has one; `order` is the iteration order of the set of modified classes.
   */
  method GetOriginalFilePathsForModifiedClasses(h: Hierarchy, s: State, child: nat, parent: nat,
                                                order: set<nat> -> seq<nat>) returns (files: seq<string>)
    requires Acyclic(h) && |s| == |h|
    ensures files == FilesOf(h, order(ModifiedClasses(h, s, child, parent)))
  {
    var modified := CollectModifiedClasses(h, s, child, parent);
    var classes := order(modified);
    files := CollectFiles(h, classes);
  }

  /** The loop of `getOriginalFilePathsForModifiedClasses` over the modified classes. */
  method CollectFiles(h: Hierarchy, classes: seq<nat>) returns (files: seq<string>)
    ensures files == FilesOf(h, classes)
  {
    files := [];
    var i := 0;
    while i < |classes|
      invariant 0 <= i <= |classes|
      invariant files == FilesOf(h, classes[..i])
    {
      assert classes[..i + 1][..i] == classes[..i];
      var c := classes[i];
      if c < |h| && h[c].file.Some? {
        files := files + [h[c].file.value];
      }
      i := i + 1;
    }
    assert classes[..i] == classes;
  }

  /** The index of the first source path that is a directory above `file`, from `from` on. */
  function FirstSourceRoot(file: string, sourcePaths: seq<string>, from: nat): (r: Option<nat>)
    ensures r.Some? ==> from <= r.value < |sourcePaths| && StartsWith(file, sourcePaths[r.value] + "/")
                        && forall j :: from <= j < r.value ==> !StartsWith(file, sourcePaths[j] + "/")
    ensures r.None? ==> forall j :: from <= j < |sourcePaths| ==> !StartsWith(file, sourcePaths[j] + "/")
    decreases |sourcePaths| - from
  {
    if from >= |sourcePaths| then None
    else if StartsWith(file, sourcePaths[from] + "/") then Some(from)
    else FirstSourceRoot(file, sourcePaths, from + 1)
  }

  /**
   * The path of `file` below the first source directory that contains it, or its bare name
   * when none does. Containment is decided by whole path components.
   */
  function RelativePath(file: string, sourcePaths: seq<string>): (r: string)
    ensures |r| <= |file| && r == file[|file| - |r|..]
    ensures (forall j :: 0 <= j < |sourcePaths| ==> !StartsWith(file, sourcePaths[j] + "/")) ==> r == FileName(file)
  {
    match FirstSourceRoot(file, sourcePaths, 0)
    case Some(i) => file[|sourcePaths[i]| + 1..]
    case None => FileName(file)
  }

  /** When a source directory contains the file, the relative path rebuilds it: root + "/" + path. */
  lemma RelativePathRebuilds(file: string, sourcePaths: seq<string>, j: nat)
    requires j < |sourcePaths| && StartsWith(file, sourcePaths[j] + "/")
    ensures exists i :: 0 <= i <= j && sourcePaths[i] + "/" + RelativePath(file, sourcePaths) == file
  {
    var i := FirstSourceRoot(file, sourcePaths, 0).value;
    assert file == file[..|sourcePaths[i]| + 1] + file[|sourcePaths[i]| + 1..];
  }

  /** `getRelativePath` with component-aware containment, as the early-return loop over the source paths. */
  method GetRelativePath(file: string, sourcePaths: seq<string>) returns (r: string)
    ensures r == RelativePath(file, sourcePaths)
  {
    var i := 0;
    while i < |sourcePaths|
      invariant 0 <= i <= |sourcePaths|
      invariant FirstSourceRoot(file, sourcePaths, 0) == FirstSourceRoot(file, sourcePaths, i)
    {
      if StartsWith(file, sourcePaths[i] + "/") {
        return file[|sourcePaths[i]| + 1..];
      }
      i := i + 1;
    }
    return FileName(file);
  }

  /**
   * `getRelativePath` as written: a plain string-prefix test, then the text after the prefix
   * and one more character. `None` is the `StringIndexOutOfBoundsException` that `substring`
   * throws when the file path equals the source path.
   */
  function RelativePathAsWritten(file: string, sourcePaths: seq<string>): (r: Option<string>)
    ensures r.None? ==> file in sourcePaths
  {
    if sourcePaths == [] then Some(FileName(file))
    else if StartsWith(file, sourcePaths[0]) then
      if |sourcePaths[0]| + 1 <= |file| then Some(file[|sourcePaths[0]| + 1..])
      else
        assert file == sourcePaths[0];
        None
    else
      var r := RelativePathAsWritten(file, sourcePaths[1..]);
      assert r.None? ==> file in sourcePaths by {
        if r.None? {
          assert file in sourcePaths[1..];
        }
      }
      r
  }

  /**
   * A source path that is a string prefix of a sibling directory captures that directory's files:
   * with source paths `/p/core` and `/p/core-ui`, the file `/p/core-ui/A.java` is placed at
   * `ui/A.java` instead of `A.java`.
   */
  lemma RelativePathPrefixClash()
    ensures RelativePathAsWritten("/p/core-ui/A.java", ["/p/core", "/p/core-ui"]) == Some("ui/A.java")
    ensures RelativePath("/p/core-ui/A.java", ["/p/core", "/p/core-ui"]) == "A.java"
  {
    assert StartsWith("/p/core-ui/A.java", "/p/core");
    assert !StartsWith("/p/core-ui/A.java", "/p/core" + "/") by {
      assert ("/p/core" + "/")[7] == '/';
      assert "/p/core-ui/A.java"[7] == '-';
    }
    assert StartsWith("/p/core-ui/A.java", "/p/core-ui" + "/");
    assert FirstSourceRoot("/p/core-ui/A.java", ["/p/core", "/p/core-ui"], 0) == Some(1);
  }

  /** A source path equal to the file path makes the code as written throw. */
  lemma RelativePathOfRootThrows()
    ensures RelativePathAsWritten("/p/src", ["/p/src"]) == None
  {
  }

  /** On proper containment the corrected path and the path as written agree. */
  lemma {:induction false} RelativePathAgrees(file: string, sourcePaths: seq<string>)
    requires forall j :: 0 <= j < |sourcePaths| && StartsWith(file, sourcePaths[j]) ==> StartsWith(file, sourcePaths[j] + "/")
    ensures RelativePathAsWritten(file, sourcePaths) == Some(RelativePath(file, sourcePaths))
  {
    if sourcePaths != [] {
      if StartsWith(file, sourcePaths[0]) {
        assert FirstSourceRoot(file, sourcePaths, 0) == Some(0);
      } else {
        RelativePathAgrees(file, sourcePaths[1..]);
        FirstSourceRootShift(file, sourcePaths, 0);
        assert !StartsWith(file, sourcePaths[0] + "/") by {
          assert sourcePaths[0] <= sourcePaths[0] + "/";
        }
      }
    }
  }

  /** Dropping a first source path that does not contain the file shifts the found index by one. */
  lemma {:induction false} FirstSourceRootShift(file: string, sourcePaths: seq<string>, from: nat)
    requires |sourcePaths| > 0
    ensures FirstSourceRoot(file, sourcePaths, from + 1) ==
      match FirstSourceRoot(file, sourcePaths[1..], from)
      case Some(i) => Some(i + 1)
      case None => None
    decreases |sourcePaths| - from
  {
    if from + 1 < |sourcePaths| {
      FirstSourceRootShift(file, sourcePaths, from + 1);
    }
  }

  /** `new File(parent, child)` for a relative child: the two joined by one separator. */
  function JoinPath(parent: string, child: string): string {
    parent + "/" + child
  }

  /**
   * `determineTargetFile`: with no output path the original file is overwritten; otherwise the
   * file keeps its path relative to its source directory below the output path.
   */
  function TargetFile(original: string, outputPath: Option<string>, sourcePaths: seq<string>): (r: string)
    ensures outputPath.None? ==> r == original
    ensures outputPath.Some? ==> StartsWith(r, outputPath.value + "/") && EndsWith(r, FileName(original))
  {
    match outputPath
    case None => original
    case Some(out) =>
      var rel := RelativePath(original, sourcePaths);
      KeepsFileName(original, sourcePaths);
      JoinKeepsEnds(out, rel, FileName(original));
      JoinPath(out, rel)
  }

  lemma JoinKeepsEnds(parent: string, child: string, name: string)
    requires EndsWith(child, name)
    ensures StartsWith(JoinPath(parent, child), parent + "/") && EndsWith(JoinPath(parent, child), name)
  {
    var j := parent + "/" + child;
    assert j[..|parent| + 1] == parent + "/";
    assert j[|j| - |name|..] == child[|child| - |name|..];
  }

  /** The relative path ends with the file's own name. */
  lemma KeepsFileName(file: string, sourcePaths: seq<string>)
    ensures EndsWith(RelativePath(file, sourcePaths), FileName(file))
  {
    var rel := RelativePath(file, sourcePaths);
    var name := FileName(file);
    match FirstSourceRoot(file, sourcePaths, 0)
    case None =>
    case Some(i) =>
      var k := |sourcePaths[i]| + 1;
      assert file[k - 1] == '/' by {
        assert (sourcePaths[i] + "/")[k - 1] == '/';
      }
      assert |name| <= |file| - k;
      assert rel[|rel| - |name|..] == file[|file| - |name|..];
  }

  /** `writeClass`: the file written for a class, `None` when it has no source position. */
  function WriteClass(h: Hierarchy, c: nat, outputPath: Option<string>, sourcePaths: seq<string>): (r: Option<string>)
    ensures r.Some? <==> c < |h| && h[c].file.Some?
    ensures r.Some? && outputPath.None? ==> r.value == h[c].file.value
  {
    if c >= |h| || h[c].file.None? then None else Some(TargetFile(h[c].file.value, outputPath, sourcePaths))
  }

  /** The files written for the given classes, in order. */
  function TargetFiles(h: Hierarchy, classes: seq<nat>, outputPath: Option<string>, sourcePaths: seq<string>): (r: seq<string>)
    ensures |r| <= |classes|
  {
    if classes == [] then []
    else
      var prev := TargetFiles(h, classes[..|classes| - 1], outputPath, sourcePaths);
      match WriteClass(h, classes[|classes| - 1], outputPath, sourcePaths)
      case Some(f) => prev + [f]
      case None => prev
  }

  /** Without an output path the files written are exactly the original files of the same classes. */
  lemma {:induction false} OverwriteWritesOriginals(h: Hierarchy, classes: seq<nat>, sourcePaths: seq<string>)
    ensures TargetFiles(h, classes, None, sourcePaths) == FilesOf(h, classes)
  {
    if classes != [] {
      OverwriteWritesOriginals(h, classes[..|classes| - 1], sourcePaths);
    }
  }

  /**
   * `writeModifiedClassesOnly`: writes every modified class that has a source position and
   * lists the files written; `order` is the iteration order of the set of modified classes.
   */
  method WriteModifiedClassesOnly(h: Hierarchy, s: State, child: nat, parent: nat, outputPath: Option<string>,
                                  sourcePaths: seq<string>, order: set<nat> -> seq<nat>) returns (files: seq<string>)
    requires Acyclic(h) && |s| == |h|
    ensures files == TargetFiles(h, order(ModifiedClasses(h, s, child, parent)), outputPath, sourcePaths)
  {
    var modified := CollectModifiedClasses(h, s, child, parent);
    files := WriteClasses(h, order(modified), outputPath, sourcePaths);
  }

  /** The loop of `writeModifiedClassesOnly`: each class written in turn, its file listed when it has one. */
  method WriteClasses(h: Hierarchy, classes: seq<nat>, outputPath: Option<string>, sourcePaths: seq<string>)
    returns (files: seq<string>)
    ensures files == TargetFiles(h, classes, outputPath, sourcePaths)
  {
    files := [];
    var i := 0;
    while i < |classes|
      invariant 0 <= i <= |classes|
      invariant files == TargetFiles(h, classes[..i], outputPath, sourcePaths)
    {
      assert classes[..i + 1][..i] == classes[..i];
      var written := WriteClass(h, classes[i], outputPath, sourcePaths);
      if written.Some? {
        files := files + [written.value];
      }
      i := i + 1;
    }
    assert classes[..i] == classes;
  }

  /** `pat` at the start of `s`, followed by at least one `\s` character. */
  predicate SpacedPrefix(s: string, pat: string) {
    |s| > |pat| && pat <= s && IsRegexSpace(s[|pat|])
  }

  /** The modifier of a match of `@Override(public|protected|private)\s+` at the start of `s`. */
  function GluedModifier(s: string): (r: Option<string>)
    ensures r.Some? ==> |r.value| + 9 < |s| && s[0] == '@' && SpacedPrefix(s, "@Override" + r.value)
    ensures r.Some? ==> r.value in ["public", "protected", "private"]
  {
    if SpacedPrefix(s, "@Overridepublic") then Some("public")
    else if SpacedPrefix(s, "@Overrideprotected") then Some("protected")
    else if SpacedPrefix(s, "@Overrideprivate") then Some("private")
    else None
  }

  /**
   * `replaceAll("@Override(public|protected|private)\\s+", "@Override\n    $1 ")`: scanning
   * left to right, each match becomes the annotation, a line break, four spaces, the modifier
   * and one space; the scan resumes after the whitespace the match consumed.
   */
  function FixOverrides(s: string): string
    decreases |s|
  {
    if s == [] then []
    else match GluedModifier(s)
      case Some(k) => "@Override\n    " + k + " " + FixOverrides(DropSpaces(s[9 + |k|..]))
      case None => [s[0]] + FixOverrides(s[1..])
  }

  /** `fixOverrideAnnotationFormatting`: `null` and empty code come back unchanged. */
  function FixOverrideAnnotationFormatting(code: Option<string>): (r: Option<string>)
    ensures code.None? ==> r.None?
    ensures code == Some("") ==> r == Some("")
    ensures code.Some? ==> r.Some? && ('@' !in code.value ==> r.value == code.value)
  {
    if code.None? || code.value == "" then code
    else
      var r := FixOverrides(code.value);
      assert '@' !in code.value ==> r == code.value by {
        if '@' !in code.value {
          NoAnnotationUnchanged(code.value);
        }
      }
      Some(r)
  }

  /** Every match starts with `@`. */
  lemma GluedNeedsAt(s: string)
    requires s != [] && s[0] != '@'
    ensures GluedModifier(s) == None
    ensures FixOverrides(s) == [s[0]] + FixOverrides(s[1..])
  {
    assert "@Overridepublic"[0] == '@';
    assert "@Overrideprotected"[0] == '@';
    assert "@Overrideprivate"[0] == '@';
  }

  /** Text without `@` passes unchanged, and the rest is rewritten on its own. */
  lemma {:induction false} FixOverridesSplit(x: string, y: string)
    requires '@' !in x
    ensures FixOverrides(x + y) == x + FixOverrides(y)
  {
    if x != [] {
      assert (x + y)[0] == x[0];
      GluedNeedsAt(x + y);
      assert (x + y)[1..] == x[1..] + y;
      FixOverridesSplit(x[1..], y);
      ConsSplit(x, FixOverrides(y));
    } else {
      assert x + y == y;
    }
  }

  lemma ConsSplit<T>(x: seq<T>, z: seq<T>)
    requires x != []
    ensures [x[0]] + (x[1..] + z) == x + z
  {
    assert x == [x[0]] + x[1..];
  }

  /** Code with no annotation at all is left as it is. */
  lemma NoAnnotationUnchanged(s: string)
    requires '@' !in s
    ensures FixOverrides(s) == s
  {
    FixOverridesSplit(s, []);
    assert s + [] == s;
  }

  /** The rewrite starts with the same character as its input. */
  lemma FixOverridesHead(w: string)
    ensures |FixOverrides(w)| > 0 <==> |w| > 0
    ensures |w| > 0 ==> FixOverrides(w)[0] == w[0]
  {
  }

  /** Whether a pattern free of `@`, followed by a space, opens the text is the same before and after the rewrite. */
  lemma {:induction false} SpacedPrefixKept(y: string, q: string)
    requires '@' !in q
    ensures SpacedPrefix(FixOverrides(y), q) <==> SpacedPrefix(y, q)
    decreases |q|
  {
    FixOverridesHead(y);
    if q != [] && y != [] {
      if y[0] != '@' {
        GluedNeedsAt(y);
        SpacedPrefixKept(y[1..], q[1..]);
        SpacedPrefixCons(FixOverrides(y), q);
        SpacedPrefixCons(y, q);
      } else {
        assert q[0] != '@';
      }
    }
  }

  /** A pattern opens a text when their first characters agree and the rest opens the rest. */
  lemma SpacedPrefixCons(z: string, q: string)
    requires z != [] && q != []
    ensures SpacedPrefix(z, q) <==> z[0] == q[0] && SpacedPrefix(z[1..], q[1..])
  {
    if q <= z {
      assert q[1..] <= z[1..] by {
        assert z[1..][..|q| - 1] == z[..|q|][1..];
      }
    }
    if z[0] == q[0] && q[1..] <= z[1..] {
      assert z[..|q|] == [z[0]] + z[1..][..|q| - 1];
      assert q == [q[0]] + q[1..];
    }
    if |z| > |q| {
      assert z[|q|] == z[1..][|q| - 1];
    }
  }

  /** A second pass finds nothing more to rewrite. */
  lemma {:induction false} FixOverridesIdempotent(s: string)
    ensures FixOverrides(FixOverrides(s)) == FixOverrides(s)
    decreases |s|
  {
    if s != [] {
      match GluedModifier(s)
      case Some(k) =>
        var t := DropSpaces(s[9 + |k|..]);
        FixOverridesIdempotent(t);
        RewrittenStays(k, FixOverrides(t));
      case None =>
        var u := FixOverrides(s[1..]);
        FixOverridesIdempotent(s[1..]);
        if s[0] == '@' {
          GluedModifierKept(s);
          assert ([s[0]] + u)[1..] == u;
        } else {
          FixOverridesSplit([s[0]], u);
        }
    }
  }

  /** The replacement text is not itself a match, so a second pass copies it. */
  lemma RewrittenStays(k: string, x: string)
    requires k in ["public", "protected", "private"]
    ensures FixOverrides("@Override\n    " + k + " " + x) == "@Override\n    " + k + " " + FixOverrides(x)
  {
    var p := "@Override\n    " + k + " ";
    var z := p + x;
    assert z[9] == '\n';
    assert "@Overridepublic"[9] == 'p' && "@Overrideprotected"[9] == 'p' && "@Overrideprivate"[9] == 'p';
    assert GluedModifier(z) == None;
    assert '@' !in p[1..];
    assert z[1..] == p[1..] + x;
    FixOverridesSplit(p[1..], x);
    ConsSplit(p, FixOverrides(x));
  }

  /** With `s` starting with `@`, rewriting the rest keeps which glued modifier matches at the start. */
  lemma GluedModifierKept(s: string)
    requires s != [] && s[0] == '@'
    ensures GluedModifier([s[0]] + FixOverrides(s[1..])) == GluedModifier(s)
  {
    assert "@Overridepublic"[1..] == "Overridepublic";
    assert "@Overrideprotected"[1..] == "Overrideprotected";
    assert "@Overrideprivate"[1..] == "Overrideprivate";
    PatternKept(s, "@Overridepublic");
    PatternKept(s, "@Overrideprotected");
    PatternKept(s, "@Overrideprivate");
  }

  /** With `s` starting with `@`, rewriting the rest keeps whether `pat` matches at the start. */
  lemma PatternKept(s: string, pat: string)
    requires s != [] && s[0] == '@' && pat != [] && pat[0] == '@' && '@' !in pat[1..]
    ensures SpacedPrefix([s[0]] + FixOverrides(s[1..]), pat) <==> SpacedPrefix(s, pat)
  {
    var z := [s[0]] + FixOverrides(s[1..]);
    SpacedPrefixCons(z, pat);
    assert z[1..] == FixOverrides(s[1..]);
    SpacedPrefixKept(s[1..], pat[1..]);
    SpacedPrefixCons(s, pat);
  }

  /** A run of `\s` characters before a non-space is dropped whole. */
  lemma {:induction false} DropSpaceRun(w: string, rest: string)
    requires forall i :: 0 <= i < |w| ==> IsRegexSpace(w[i])
    requires rest == [] || !IsRegexSpace(rest[0])
    ensures DropSpaces(w + rest) == rest
  {
    if w == [] {
      assert w + rest == rest;
    } else {
      assert (w + rest)[1..] == w[1..] + rest;
      DropSpaceRun(w[1..], rest);
    }
  }

  /**
   * Each glued annotation is split: `@Override`, a modifier, whitespace and then the rest of
   * the code become the annotation, a line break, four spaces, the modifier, one space and the
   * rewritten rest.
   */
  lemma GluedRewritten(k: string, w: string, rest: string)
    requires k in ["public", "protected", "private"]
    requires w != [] && forall i :: 0 <= i < |w| ==> IsRegexSpace(w[i])
    requires rest == [] || !IsRegexSpace(rest[0])
    ensures FixOverrides("@Override" + k + w + rest) == "@Override\n    " + k + " " + FixOverrides(rest)
  {
    var z := "@Override" + k + w + rest;
    GluedModifierOf(k, z, w + rest);
    DropSpaceRun(w, rest);
  }

  /** Which modifier a glued annotation carries. */
  lemma GluedModifierOf(k: string, z: string, after: string)
    requires k in ["public", "protected", "private"]
    requires z == "@Override" + k + after && after != [] && IsRegexSpace(after[0])
    ensures GluedModifier(z) == Some(k) && z[9 + |k|..] == after
  {
    assert z[..9 + |k|] == "@Override" + k;
    assert z[9 + |k|] == after[0];
    assert z[9] == 'p';
    if k == "protected" {
      assert z[11] == 'o' && "@Overridepublic"[11] == 'b';
    } else if k == "private" {
      assert z[10] == 'r' && "@Overridepublic"[10] == 'u';
      assert z[11] == 'i' && "@Overrideprotected"[11] == 'o';
    }
  }
}
