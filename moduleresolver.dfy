/**
 * The module resolver: an index from package prefixes (`pkg.`) to the Maven coordinates of
 * the module whose sources declare that package, and the longest-prefix lookup of a
 * qualified name in it. Finding the modules and reading their `pom.xml` files is not part of
 * this model: the constructor takes what was found.
 */
module ModuleResolver {
  import opened Common

  datatype ModuleCoords = ModuleCoords(groupId: string, artifactId: string, moduleRoot: string)

  /** A module root as discovered: its coordinates (`None` when its manifest was unreadable) and its packages. */
  datatype DiscoveredModule = DiscoveredModule(coords: Option<ModuleCoords>, packages: seq<string>)

  /** A source file under `src/main/java`: its path and its lines. */
  datatype SourceFile = SourceFile(path: string, lines: seq<string>)

  /** At most this many `.java` files of a module are read. */
  const MaxScannedFiles: nat := 5000

  /** The pieces of a name between dots, empty pieces included. */
  function Segments(s: string): (r: seq<string>)
    ensures |r| >= 1
  {
    Pieces(s, '.')
  }

  /** The first `end` pieces, joined and followed by a dot, are a prefix of the name. */
  lemma {:induction false} SegmentsPrefix(s: string, end: nat)
    requires 1 <= end < |Segments(s)|
    ensures StartsWith(s, Join(Segments(s)[..end], ".") + ".")
  {
    var t := Segments(s[1..]);
    if s[0] == '.' {
      assert Segments(s) == [""] + t;
      if end == 1 {
        assert Segments(s)[..1] == [""];
      } else {
        SegmentsPrefix(s[1..], end - 1);
        assert Segments(s)[..end] == [""] + t[..end - 1];
        assert Join([""] + t[..end - 1], ".") == "" + "." + Join(t[..end - 1], ".");
        assert s == "." + s[1..];
      }
    } else {
      SegmentsPrefix(s[1..], end);
      assert Segments(s)[..end] == [[s[0]] + t[0]] + t[1..end];
      JoinFirst(s[0], t[0], t[1..end], ".");
      assert [t[0]] + t[1..end] == t[..end];
      assert s == [s[0]] + s[1..];
    }
  }

  /** The pieces with the empty ones at the end removed. */
  function DropTrailingEmpty(p: seq<string>): (r: seq<string>)
    ensures |r| <= |p| && r == p[..|r|]
    ensures r == [] || r[|r| - 1] != ""
  {
    if p != [] && p[|p| - 1] == "" then DropTrailingEmpty(p[..|p| - 1]) else p
  }

  /**
   * `s.split("\\.")`: the pieces between dots with trailing empty pieces removed; a name
   * without a dot is its own single piece.
   */
  function SplitDots(s: string): (r: seq<string>)
    ensures |r| <= |Segments(s)| && r == Segments(s)[..|r|]
  {
    if '.' !in s then
      PiecesWithoutSeparator(s, '.');
      Segments(s)
    else DropTrailingEmpty(Segments(s))
  }

  /** A leading `static ` (of a static import) is dropped. */
  function StripStatic(qn: string): (r: string)
    ensures StartsWith(qn, "static ") ==> r == qn[7..]
    ensures !StartsWith(qn, "static ") ==> r == qn
  {
    if StartsWith(qn, "static ") then qn[7..] else qn
  }

  /** The index key tried for the first `end` pieces: those pieces joined, and a trailing dot. */
  function Key(parts: seq<string>, end: nat): string
    requires end <= |parts|
  {
    Join(parts[..end], ".") + "."
  }

  /** The largest `e` with `1 <= e <= end` whose key is indexed, trying `end` first and counting down. */
  function LongestIndexed(index: map<string, ModuleCoords>, parts: seq<string>, end: nat): (r: Option<nat>)
    requires end <= |parts|
    ensures r.Some? ==> 1 <= r.value <= end && Key(parts, r.value) in index
                        && forall e :: r.value < e <= end ==> Key(parts, e) !in index
    ensures r.None? ==> forall e :: 1 <= e <= end ==> Key(parts, e) !in index
  {
    if end < 1 then None
    else if Key(parts, end) in index then Some(end)
    else LongestIndexed(index, parts, end - 1)
  }

  /**
   * `resolveByQualifiedName`: the module of the longest proper dotted prefix of the name
   * that is indexed. The whole name is never tried.
   */
  function Resolve(index: map<string, ModuleCoords>, qualifiedName: Option<string>): (r: Option<ModuleCoords>)
    ensures qualifiedName.None? ==> r.None?
    ensures qualifiedName.Some? && |SplitDots(StripStatic(qualifiedName.value))| <= 1 ==> r.None?
  {
    match qualifiedName
    case None => None
    case Some(qn) =>
      var parts := SplitDots(StripStatic(qn));
      if |parts| == 0 then None
      else match LongestIndexed(index, parts, |parts| - 1)
        case None => None
        case Some(e) => Some(index[Key(parts, e)])
  }

  /** A module found for a name is the one indexed under a prefix of the name, and no longer prefix is indexed. */
  lemma ResolvedIsLongestPrefix(index: map<string, ModuleCoords>, qn: string)
    requires Resolve(index, Some(qn)).Some?
    ensures var name := StripStatic(qn); var parts := SplitDots(name);
      exists e :: 1 <= e < |parts| && StartsWith(name, Key(parts, e)) && Key(parts, e) in index
                  && index[Key(parts, e)] == Resolve(index, Some(qn)).value
                  && forall e' :: e < e' < |parts| ==> Key(parts, e') !in index
  {
    var name := StripStatic(qn);
    var parts := SplitDots(name);
    var e := LongestIndexed(index, parts, |parts| - 1).value;
    assert parts[..e] == Segments(name)[..e];
    SegmentsPrefix(name, e);
  }

  /** A static import resolves like the member name it imports. */
  lemma StaticImportResolvesAsMember(index: map<string, ModuleCoords>, q: string)
    requires !StartsWith(q, "static ")
    ensures Resolve(index, Some("static " + q)) == Resolve(index, Some(q))
  {
    assert StartsWith("static " + q, "static ");
    assert ("static " + q)[7..] == q;
  }

  /** The first trimmed line declaring a package decides the file's package; `None` when it names none or there is no such line. */
  function PackageOf(lines: seq<string>): (r: Option<string>)
    ensures r.Some? ==> r.value != []
  {
    if lines == [] then None
    else
      var t := Trim(lines[0]);
      if StartsWith(t, "package ") && EndsWith(t, ";") then
        assert |t| >= 9 by {
          assert t[7] == ' ';
          assert t[|t| - 1] == ';';
        }
        var pkg := Trim(t[8..|t| - 1]);
        if pkg != [] then Some(pkg) else None
      else PackageOf(lines[1..])
  }

  /** The `.java` files of a module, in the order the walk yields them, at most `MaxScannedFiles` of them. */
  function ScannedFiles(files: seq<SourceFile>): (r: seq<SourceFile>)
    ensures |r| <= MaxScannedFiles
    ensures forall f :: f in r ==> f in files && EndsWith(f.path, ".java")
  {
    var java := JavaFiles(files);
    if |java| <= MaxScannedFiles then java else java[..MaxScannedFiles]
  }

  function JavaFiles(files: seq<SourceFile>): (r: seq<SourceFile>)
    ensures forall f :: f in r <==> f in files && EndsWith(f.path, ".java")
  {
    if files == [] then []
    else
      assert forall f :: f in files <==> f == files[0] || f in files[1..];
      (if EndsWith(files[0].path, ".java") then [files[0]] else []) + JavaFiles(files[1..])
  }

  /** The package each file declares, file by file. */
  function FilePackages(files: seq<SourceFile>): (r: seq<Option<string>>)
    ensures |r| == |files|
    ensures forall i :: 0 <= i < |files| ==> r[i] == PackageOf(files[i].lines)
  {
    seq(|files|, i requires 0 <= i < |files| => PackageOf(files[i].lines))
  }

  /** The names present among the first `n` entries, in order, repeats kept. */
  function Somes(opts: seq<Option<string>>, n: nat): (r: seq<string>)
    requires n <= |opts|
    ensures |r| <= n
  {
    if n == 0 then []
    else
      var prev := Somes(opts, n - 1);
      if opts[n - 1].Some? then prev + [opts[n - 1].value] else prev
  }

  /** A name collected among the first `n` entries is one of them. */
  lemma {:induction false} SomesFrom(opts: seq<Option<string>>, n: nat, p: string)
    requires n <= |opts| && p in Somes(opts, n)
    ensures exists i :: 0 <= i < n && opts[i] == Some(p)
    decreases n
  {
    var prev := Somes(opts, n - 1);
    if p in prev {
      SomesFrom(opts, n - 1, p);
      var i :| 0 <= i < n - 1 && opts[i] == Some(p);
      assert 0 <= i < n;
    } else {
      assert opts[n - 1] == Some(p);
    }
  }

  /** The package names the scanned files declare, in order, repeats kept. */
  function DeclaredPackages(files: seq<SourceFile>): seq<string> {
    Somes(FilePackages(ScannedFiles(files)), |ScannedFiles(files)|)
  }

  /** Every collected name is a non-empty package that one scanned `.java` file declares on its first package line. */
  lemma DeclaredPackagesFrom(files: seq<SourceFile>, p: string)
    requires p in DeclaredPackages(files)
    ensures p != [] && exists f :: f in files && EndsWith(f.path, ".java") && PackageOf(f.lines) == Some(p)
  {
    var scanned := ScannedFiles(files);
    SomesFrom(FilePackages(scanned), |scanned|, p);
    var i :| 0 <= i < |scanned| && FilePackages(scanned)[i] == Some(p);
    assert scanned[i] in scanned;
  }

  /** Names ordered by non-increasing length. */
  predicate LongestFirst(s: seq<string>) {
    forall i, j :: 0 <= i < j < |s| ==> |s[i]| >= |s[j]|
  }

  /** A name no shorter than the head of a longest-first list can go in front of it. */
  lemma LongestFirstCons(h: string, t: seq<string>)
    requires LongestFirst(t) && (t == [] || |t[0]| <= |h|)
    ensures LongestFirst([h] + t)
  {
    var r := [h] + t;
    forall i, j | 0 <= i < j < |r| ensures |r[i]| >= |r[j]| {
      if i == 0 {
        assert r[j] == t[j - 1];
      } else {
        assert r[i] == t[i - 1] && r[j] == t[j - 1];
      }
    }
  }

  /** `x` placed after every element at least as long as it: one step of a stable sort. */
  function InsertByLength(x: string, s: seq<string>): (r: seq<string>)
    requires LongestFirst(s)
    ensures |r| == |s| + 1
    ensures r[0] == x || (s != [] && r[0] == s[0])
    ensures LongestFirst(r) && multiset(r) == multiset(s) + multiset{x}
  {
    if s == [] then [x]
    else if |s[0]| >= |x| then
      var t := InsertByLength(x, s[1..]);
      assert s == [s[0]] + s[1..];
      assert |t[0]| <= |s[0]|;
      LongestFirstCons(s[0], t);
      [s[0]] + t
    else
      [x] + s
  }

  /** `list.sort(comparing length, longest first)`, as a stable insertion sort. */
  function SortLongestFirst(s: seq<string>): (r: seq<string>)
    ensures LongestFirst(r) && multiset(r) == multiset(s)
  {
    if s == [] then []
    else
      assert s == s[..|s| - 1] + [s[|s| - 1]];
      InsertByLength(s[|s| - 1], SortLongestFirst(s[..|s| - 1]))
  }

  /**
   * `discoverPackagesUnderModule`: the package of each scanned file, collected in a loop,
   * then de-duplicated keeping first occurrences and sorted longest first.
   */
  method DiscoverPackagesUnderModule(files: seq<SourceFile>) returns (r: seq<string>)
    ensures r == SortLongestFirst(Distinct(DeclaredPackages(files)))
  {
    var scanned := ScannedFiles(files);
    ghost var opts := FilePackages(scanned);
    var pkgs: seq<string> := [];
    var i := 0;
    while i < |scanned|
      invariant 0 <= i <= |scanned|
      invariant pkgs == Somes(opts, i)
    {
      var p := PackageOf(scanned[i].lines);
      assert p == opts[i];
      if p.Some? {
        pkgs := pkgs + [p.value];
      }
      i := i + 1;
    }
    assert pkgs == DeclaredPackages(files);
    r := SortLongestFirst(Distinct(pkgs));
  }

  /** The packages a module contributes are its declared packages, each once, longest first. */
  lemma DiscoveredPackagesShape(files: seq<SourceFile>)
    ensures var d := DeclaredPackages(files);
            var r := SortLongestFirst(Distinct(d));
            LongestFirst(r) && (forall p :: p in r <==> p in d)
            && forall i, j :: 0 <= i < j < |r| ==> r[i] != r[j]
  {
    var d := DeclaredPackages(files);
    var u := Distinct(d);
    var r := SortLongestFirst(u);
    forall p ensures p in r <==> p in u {
      assert p in r <==> p in multiset(r);
      assert p in u <==> p in multiset(u);
    }
    DistinctUnchangedBySort(u, r);
  }

  /** Sorting a list without repeats gives a list without repeats. */
  lemma DistinctUnchangedBySort(u: seq<string>, r: seq<string>)
    requires forall i, j :: 0 <= i < j < |u| ==> u[i] != u[j]
    requires multiset(r) == multiset(u)
    ensures forall i, j :: 0 <= i < j < |r| ==> r[i] != r[j]
  {
    forall i, j | 0 <= i < j < |r| ensures r[i] != r[j] {
      if r[i] == r[j] {
        assert r == r[..j] + [r[j]] + r[j + 1..];
        assert r[i] in r[..j];
        assert multiset(r)[r[i]] >= 2 by {
          assert multiset(r) == multiset(r[..j]) + multiset{r[j]} + multiset(r[j + 1..]);
        }
        SingleCount(u, r[i]);
      }
    }
  }

  lemma {:induction false} SingleCount(u: seq<string>, x: string)
    requires forall i, j :: 0 <= i < j < |u| ==> u[i] != u[j]
    ensures multiset(u)[x] <= 1
  {
    if u != [] {
      SingleCount(u[1..], x);
      assert u == [u[0]] + u[1..];
      assert multiset(u) == multiset{u[0]} + multiset(u[1..]);
      if u[0] == x {
        assert x !in u[1..];
      }
    }
  }

  /** The index the resolver builds: every package of a readable module, under `pkg.`; a later module overrides an earlier one. */
  function IndexOf(modules: seq<DiscoveredModule>, n: nat): (r: map<string, ModuleCoords>)
    requires n <= |modules|
    ensures forall k :: k in r ==> EndsWith(k, ".")
  {
    if n == 0 then map[]
    else PutAll(IndexOf(modules, n - 1), modules[n - 1], |modules[n - 1].packages|)
  }

  /** The index after the first `n` packages of one module are put into `m`. */
  function PutAll(m: map<string, ModuleCoords>, d: DiscoveredModule, n: nat): (r: map<string, ModuleCoords>)
    requires n <= |d.packages|
    requires forall k :: k in m ==> EndsWith(k, ".")
    ensures forall k :: k in r ==> EndsWith(k, ".")
    ensures d.coords.None? ==> r == m
  {
    if n == 0 || d.coords.None? then m
    else
      var key := d.packages[n - 1] + ".";
      assert EndsWith(key, ".") by {
        assert key[|key| - 1..] == ".";
      }
      PutAll(m, d, n - 1)[key := d.coords.value]
  }

  /** A key of the index belongs to a package some readable module declares. */
  lemma {:induction false} IndexedPackagesDeclared(modules: seq<DiscoveredModule>, n: nat, k: string)
    requires n <= |modules| && k in IndexOf(modules, n)
    ensures exists i, j :: 0 <= i < n && modules[i].coords.Some? && 0 <= j < |modules[i].packages|
                           && modules[i].packages[j] + "." == k
  {
    if k in IndexOf(modules, n - 1) {
      IndexedPackagesDeclared(modules, n - 1, k);
    } else {
      var j := PutAllNew(IndexOf(modules, n - 1), modules[n - 1], |modules[n - 1].packages|, k);
    }
  }

  lemma {:induction false} PutAllNew(m: map<string, ModuleCoords>, d: DiscoveredModule, n: nat, k: string) returns (j: nat)
    requires n <= |d.packages|
    requires forall x :: x in m ==> EndsWith(x, ".")
    requires k in PutAll(m, d, n) && k !in m
    ensures d.coords.Some? && j < n && d.packages[j] + "." == k
  {
    if d.packages[n - 1] + "." == k {
      j := n - 1;
    } else {
      j := PutAllNew(m, d, n - 1, k);
    }
  }

  /** Putting the packages of a readable module leaves each of them mapped to that module. */
  lemma {:induction false} PutAllMaps(m: map<string, ModuleCoords>, d: DiscoveredModule, n: nat, j: nat)
    requires n <= |d.packages| && j < n
    requires forall x :: x in m ==> EndsWith(x, ".")
    requires d.coords.Some?
    ensures d.packages[j] + "." in PutAll(m, d, n)
    ensures PutAll(m, d, n)[d.packages[j] + "."] == d.coords.value
  {
    if j < n - 1 {
      PutAllMaps(m, d, n - 1, j);
    }
  }

  /** The last readable module that declares a package is the one the index maps it to. */
  lemma LaterModuleWins(modules: seq<DiscoveredModule>, pkg: string)
    requires |modules| > 0 && modules[|modules| - 1].coords.Some?
    requires pkg in modules[|modules| - 1].packages
    ensures pkg + "." in IndexOf(modules, |modules|)
    ensures IndexOf(modules, |modules|)[pkg + "."] == modules[|modules| - 1].coords.value
  {
    var d := modules[|modules| - 1];
    var j :| 0 <= j < |d.packages| && d.packages[j] == pkg;
    PutAllMaps(IndexOf(modules, |modules| - 1), d, |d.packages|, j);
  }

  class Resolver {
    var packagePrefixToModule: map<string, ModuleCoords>

    /** The constructor: puts `pkg.` for every package of every readable module, module by module. */
    constructor (modules: seq<DiscoveredModule>)
      ensures packagePrefixToModule == IndexOf(modules, |modules|)
    {
      packagePrefixToModule := map[];
      new;
      var i := 0;
      while i < |modules|
        invariant 0 <= i <= |modules|
        invariant packagePrefixToModule == IndexOf(modules, i)
      {
        var d := modules[i];
        if d.coords.Some? {
          var j := 0;
          while j < |d.packages|
            invariant 0 <= j <= |d.packages|
            invariant packagePrefixToModule == PutAll(IndexOf(modules, i), d, j)
          {
            packagePrefixToModule := packagePrefixToModule[d.packages[j] + "." := d.coords.value];
            j := j + 1;
          }
        }
        i := i + 1;
      }
    }

    /** `resolveByQualifiedName`: the loop over `end` from the longest proper prefix down. */
    method ResolveByQualifiedName(qualifiedName: Option<string>) returns (r: Option<ModuleCoords>)
      ensures r == Resolve(packagePrefixToModule, qualifiedName)
    {
      if qualifiedName.None? {
        return None;
      }
      var qn := qualifiedName.value;
      if StartsWith(qn, "static ") {
        qn := qn[7..];
      }
      var parts := SplitDots(qn);
      if |parts| == 0 {
        return None;
      }
      var end := |parts| - 1;
      while end >= 1
        invariant 0 <= end <= |parts| - 1
        invariant LongestIndexed(packagePrefixToModule, parts, |parts| - 1) == LongestIndexed(packagePrefixToModule, parts, end)
      {
        var prefix := Join(parts[..end], ".");
        if prefix + "." in packagePrefixToModule {
          return Some(packagePrefixToModule[prefix + "."]);
        }
        end := end - 1;
      }
      return None;
    }
  }
}
