/**
 * The manifest dependency manager: reads the `import` lines of a changed source file,
 * resolves each imported name to the module that declares its package, and appends to the
 * module's `pom.xml` a dependency for every such module not already listed, with version
 * `${project.version}`. The manifest is modelled as the children of its `<dependencies>`
 * element; parsing and writing the XML are not part of this model.
 */
module PomDependencyManager {
  import opened Common
  import opened ModuleResolver

  /** The version every appended dependency carries. */
  const ProjectVersion: string := "${project.version}"

  /** The group used when no manifest up the directory tree names one. */
  const FallbackGroupId: string := "org.jhotdraw"

  /** A node of the manifest: an element with its text content and children, or any other node. */
  datatype XmlNode = Element(name: string, text: string, children: seq<XmlNode>) | Other

  /** The qualified name an `import` line brings in: trimmed, without `import`, `;` and `static `. */
  function ImportedName(line: string): (r: Option<string>)
    ensures r.Some? ==> StartsWith(Trim(line), "import ") && EndsWith(Trim(line), ";")
    ensures r.None? ==> !(StartsWith(Trim(line), "import ") && EndsWith(Trim(line), ";"))
  {
    var t := Trim(line);
    if StartsWith(t, "import ") && EndsWith(t, ";") then Some(ImportTarget(t)) else None
  }

  /** What an import statement names: between `import ` and `;`, trimmed, and without `static `. */
  function ImportTarget(t: string): string
    requires StartsWith(t, "import ") && EndsWith(t, ";")
  {
    assert |t| >= 8 by {
      assert t[6] == ' ';
      assert t[|t| - 1] == ';';
    }
    var q := Trim(t[7..|t| - 1]);
    if StartsWith(q, "static ") then Trim(q[7..]) else q
  }

  /** The artifact an import line needs: the module its name resolves to, when that module has an artifactId. */
  function NeededArtifact(index: map<string, ModuleCoords>, line: string): (r: Option<string>)
    ensures r.Some? ==> r.value != [] && ImportedName(line).Some?
  {
    match ImportedName(line)
    case None => None
    case Some(q) =>
      match Resolve(index, Some(q))
      case None => None
      case Some(c) => if c.artifactId != [] then Some(c.artifactId) else None
  }

  /**
   * The ids of `ids` that are neither `known` nor already taken, in order, each once:
   * what adding `ids` one by one to an insertion-ordered set on top of `known` adds.
   */
  function Added(known: set<string>, ids: seq<string>): (r: seq<string>)
    ensures forall x :: x in r ==> x !in known && x in ids
    ensures forall x :: x in ids ==> x in known || x in r
    ensures forall i, j :: 0 <= i < j < |r| ==> r[i] != r[j]
  {
    if ids == [] then []
    else
      var p := Added(known, ids[..|ids| - 1]);
      var x := ids[|ids| - 1];
      assert ids == ids[..|ids| - 1] + [x];
      if x in known || x in p then p else p + [x]
  }

  /** One more id is added when it is neither known nor already added. */
  lemma AddedStep(known: set<string>, ids: seq<string>, x: string)
    ensures Added(known, ids + [x]) == if x in known || x in Added(known, ids) then Added(known, ids) else Added(known, ids) + [x]
  {
    assert (ids + [x])[..|ids|] == ids;
  }

  /** Once everything `ids` holds is known, nothing is added. */
  lemma {:induction false} AddedNothing(known: set<string>, ids: seq<string>)
    requires forall i :: 0 <= i < |ids| ==> ids[i] in known
    ensures Added(known, ids) == []
  {
    if ids != [] {
      AddedNothing(known, ids[..|ids| - 1]);
    }
  }

  /** The artifact each line of a file needs, if any. */
  function LineArtifacts(index: map<string, ModuleCoords>, lines: seq<string>): (r: seq<Option<string>>)
    ensures |r| == |lines|
    ensures forall i :: 0 <= i < |lines| ==> r[i] == NeededArtifact(index, lines[i])
  {
    seq(|lines|, i requires 0 <= i < |lines| => NeededArtifact(index, lines[i]))
  }

  /** The values among the first `n` entries, in first-occurrence order, each once: an insertion-ordered set. */
  function Collected(found: seq<Option<string>>, n: nat): seq<string>
    requires n <= |found|
  {
    if n == 0 then []
    else
      var p := Collected(found, n - 1);
      if found[n - 1].Some? && found[n - 1].value !in p then p + [found[n - 1].value] else p
  }

  /** No value is collected twice. */
  lemma {:induction false} CollectedDistinct(found: seq<Option<string>>, n: nat)
    requires n <= |found|
    ensures NoRepeats(Collected(found, n))
  {
    if n > 0 {
      CollectedDistinct(found, n - 1);
      var p := Collected(found, n - 1);
      if found[n - 1].Some? && found[n - 1].value !in p {
        var r := p + [found[n - 1].value];
        forall i, j | 0 <= i < j < |r| ensures r[i] != r[j] {
          assert r[i] == p[i];
          if j == |p| {
            assert r[j] == found[n - 1].value;
          } else {
            assert r[j] == p[j];
          }
        }
      }
    }
  }

  /** A value is collected exactly when one of the first `n` entries holds it. */
  lemma {:induction false} CollectedMembers(found: seq<Option<string>>, n: nat, a: string)
    requires n <= |found|
    ensures a in Collected(found, n) <==> exists i :: 0 <= i < n && found[i] == Some(a)
    decreases n
  {
    if n > 0 {
      var p := Collected(found, n - 1);
      CollectedMembers(found, n - 1, a);
      if a in Collected(found, n) && a in p {
        var i :| 0 <= i < n - 1 && found[i] == Some(a);
        assert 0 <= i < n;
      }
      if exists i :: 0 <= i < n && found[i] == Some(a) {
        var i :| 0 <= i < n && found[i] == Some(a);
        if i < n - 1 {
          assert a in p;
        }
      }
    }
  }

  /** One more entry: its value is collected when it is new. */
  lemma CollectedStep(found: seq<Option<string>>, n: nat, f: Option<string>)
    requires n < |found| && f == found[n]
    ensures Collected(found, n + 1) == if f.Some? && f.value !in Collected(found, n) then Collected(found, n) + [f.value] else Collected(found, n)
  {
  }

  /** The artifacts a file's import lines need, in first-occurrence order, each once. */
  function NeededArtifacts(index: map<string, ModuleCoords>, lines: seq<string>): seq<string> {
    Collected(LineArtifacts(index, lines), |lines|)
  }

  /** No artifact is listed twice. */
  lemma NeededArtifactsDistinct(index: map<string, ModuleCoords>, lines: seq<string>)
    ensures NoRepeats(NeededArtifacts(index, lines))
  {
    CollectedDistinct(LineArtifacts(index, lines), |lines|);
  }

  /** An artifact is needed exactly when some import line resolves to it. */
  lemma NeededArtifactsMembers(index: map<string, ModuleCoords>, lines: seq<string>, a: string)
    ensures a in NeededArtifacts(index, lines) <==> exists i :: 0 <= i < |lines| && NeededArtifact(index, lines[i]) == Some(a)
  {
    var found := LineArtifacts(index, lines);
    CollectedMembers(found, |lines|, a);
    if exists i :: 0 <= i < |lines| && NeededArtifact(index, lines[i]) == Some(a) {
      var i :| 0 <= i < |lines| && NeededArtifact(index, lines[i]) == Some(a);
      assert found[i] == Some(a);
    }
  }

  /** The body of the loop in `detectNeededArtifacts`: parse the line, resolve the name, keep a non-empty artifactId. */
  method LineArtifact(line: string, resolver: Resolver) returns (found: Option<string>)
    ensures found == NeededArtifact(resolver.packagePrefixToModule, line)
  {
    found := None;
    var q := ImportedName(line);
    if q.Some? {
      var coords := resolver.ResolveByQualifiedName(q);
      if coords.Some? && coords.value.artifactId != [] {
        found := Some(coords.value.artifactId);
      }
    }
  }

  /**
   * `detectNeededArtifacts`: the loop over the file's lines adding each resolved,
   * non-empty artifactId to an insertion-ordered set.
   */
  method DetectNeededArtifacts(lines: seq<string>, resolver: Resolver) returns (artifacts: seq<string>)
    ensures artifacts == NeededArtifacts(resolver.packagePrefixToModule, lines)
  {
    ghost var found := LineArtifacts(resolver.packagePrefixToModule, lines);
    artifacts := [];
    var i := 0;
    while i < |lines|
      invariant 0 <= i <= |lines|
      invariant artifacts == Collected(found, i)
    {
      var f := LineArtifact(lines[i], resolver);
      CollectedStep(found, i, f);
      if f.Some? && f.value !in artifacts {
        artifacts := artifacts + [f.value];
      }
      i := i + 1;
    }
  }

  /** Where the first element child called `name` is. */
  function FirstChild(children: seq<XmlNode>, name: string): (r: Option<nat>)
    ensures r.Some? ==> r.value < |children| && children[r.value].Element? && children[r.value].name == name
    ensures r.Some? ==> forall j :: 0 <= j < r.value ==> !(children[j].Element? && children[j].name == name)
    ensures r.None? ==> forall j :: 0 <= j < |children| ==> !(children[j].Element? && children[j].name == name)
  {
    if children == [] then None
    else if children[0].Element? && children[0].name == name then Some(0)
    else match FirstChild(children[1..], name)
      case None => None
      case Some(k) => Some(k + 1)
  }

  /** The artifactId a `<dependency>` element lists: the text of its first `artifactId` child, trimmed, when not empty. */
  function ListedArtifactId(n: XmlNode): (r: Option<string>)
    ensures r.Some? ==> n.Element? && n.name == "dependency"
  {
    if n.Element? && n.name == "dependency" then
      match FirstChild(n.children, "artifactId")
      case None => None
      case Some(k) => if n.children[k].text != [] then Some(Trim(n.children[k].text)) else None
    else None
  }

  /** The artifactIds the children of `<dependencies>` list. */
  function ExistingIds(deps: seq<XmlNode>): (r: set<string>)
  {
    if deps == [] then {}
    else
      var last := ListedArtifactId(deps[|deps| - 1]);
      ExistingIds(deps[..|deps| - 1]) + (if last.Some? then {last.value} else {})
  }

  /** An id exists exactly when some dependency lists it. */
  lemma {:induction false} ExistingIdsMembers(deps: seq<XmlNode>, a: string)
    ensures a in ExistingIds(deps) <==> exists i :: 0 <= i < |deps| && ListedArtifactId(deps[i]) == Some(a)
  {
    if deps != [] {
      var init := deps[..|deps| - 1];
      var last := ListedArtifactId(deps[|deps| - 1]);
      ExistingIdsMembers(init, a);
      assert ExistingIds(deps) == ExistingIds(init) + (if last.Some? then {last.value} else {});
      if a in ExistingIds(deps) {
        if a in ExistingIds(init) {
          var i :| 0 <= i < |init| && ListedArtifactId(init[i]) == Some(a);
          assert deps[i] == init[i];
        } else {
          assert last.Some? && a == last.value;
        }
      }
      if exists i :: 0 <= i < |deps| && ListedArtifactId(deps[i]) == Some(a) {
        var i :| 0 <= i < |deps| && ListedArtifactId(deps[i]) == Some(a);
        if i < |init| {
          assert init[i] == deps[i];
        } else {
          assert i == |deps| - 1;
        }
      }
    }
  }

  /** The listed ids of two runs of children are those of each. */
  lemma {:induction false} ExistingIdsAppend(a: seq<XmlNode>, b: seq<XmlNode>)
    ensures ExistingIds(a + b) == ExistingIds(a) + ExistingIds(b)
  {
    if b != [] {
      ExistingIdsAppend(a, b[..|b| - 1]);
      assert (a + b)[..|a + b| - 1] == a + b[..|b| - 1];
      assert (a + b)[|a + b| - 1] == b[|b| - 1];
    } else {
      assert a + b == a;
    }
  }

  /** `collectExistingArtifactIds`: the loop over the children of `<dependencies>`. */
  method CollectExistingArtifactIds(dependencies: seq<XmlNode>) returns (ids: set<string>)
    ensures ids == ExistingIds(dependencies)
  {
    ids := {};
    var i := 0;
    while i < |dependencies|
      invariant 0 <= i <= |dependencies|
      invariant ids == ExistingIds(dependencies[..i])
    {
      assert dependencies[..i + 1][..i] == dependencies[..i];
      var n := dependencies[i];
      if n.Element? && n.name == "dependency" {
        var k := FirstChild(n.children, "artifactId");
        if k.Some? && n.children[k.value].text != [] {
          ids := ids + {Trim(n.children[k.value].text)};
        }
      }
      i := i + 1;
    }
    assert dependencies[..|dependencies|] == dependencies;
  }

  /** The `<dependency>` element appended for an artifact. */
  function NewDependency(groupId: string, artifactId: string): (r: XmlNode)
    ensures r.Element? && r.name == "dependency" && |r.children| == 3
    ensures r.children[0] == Element("groupId", groupId, [])
    ensures r.children[1] == Element("artifactId", artifactId, [])
    ensures r.children[2] == Element("version", ProjectVersion, [])
  {
    Element("dependency", groupId + artifactId + ProjectVersion,
      [Element("groupId", groupId, []), Element("artifactId", artifactId, []), Element("version", ProjectVersion, [])])
  }

  /** The elements appended for the artifacts `ids`, in order. */
  function NewDependencies(groupId: string, ids: seq<string>): (r: seq<XmlNode>)
    ensures |r| == |ids|
    ensures forall i :: 0 <= i < |ids| ==> r[i] == NewDependency(groupId, ids[i])
  {
    seq(|ids|, i requires 0 <= i < |ids| => NewDependency(groupId, ids[i]))
  }

  /** An artifactId that is not empty and has no white space around it. */
  predicate Bare(a: string) {
    a != [] && Trim(a) == a
  }

  /** An appended element lists its own artifactId, when that has no white space around it and is not empty. */
  lemma NewDependencyListed(groupId: string, a: string)
    requires Bare(a)
    ensures ListedArtifactId(NewDependency(groupId, a)) == Some(a)
  {
    var n := NewDependency(groupId, a);
    assert FirstChild(n.children[1..], "artifactId") == Some(0);
    assert FirstChild(n.children, "artifactId") == Some(1);
  }

  lemma AppendLastNames(ids: seq<string>)
    requires ids != []
    ensures NameSet(ids) == NameSet(ids[..|ids| - 1]) + {ids[|ids| - 1]}
  {
    assert ids == ids[..|ids| - 1] + [ids[|ids| - 1]];
  }

  /** The ids the appended elements list are the appended ids. */
  lemma {:induction false} NewDependenciesListed(groupId: string, ids: seq<string>)
    requires forall a :: a in ids ==> Bare(a)
    ensures ExistingIds(NewDependencies(groupId, ids)) == NameSet(ids)
  {
    if ids != [] {
      var init := ids[..|ids| - 1];
      NewDependenciesListed(groupId, init);
      assert NewDependencies(groupId, ids)[..|ids| - 1] == NewDependencies(groupId, init);
      NewDependencyListed(groupId, ids[|ids| - 1]);
      AppendLastNames(ids);
    }
  }

  /**
   * A module manifest: the children of its `<dependencies>` element (`None` when it has
   * none) and the groupId `resolveGroupIdForArtifact` finds for it, which looks only at the
   * manifests up the directory tree.
   */
  class Manifest {
    const groupId: string
    var dependencies: Option<seq<XmlNode>>

    constructor (groupId: string, dependencies: Option<seq<XmlNode>>)
      ensures this.groupId == groupId && this.dependencies == dependencies
    {
      this.groupId := groupId;
      this.dependencies := dependencies;
    }
  }

  /** `resolveGroupIdForArtifact`'s last step: the groupId found up the tree, or the fallback. */
  function GroupIdOrFallback(found: Option<string>): (r: string)
    ensures r != []
    ensures found.Some? && found.value != [] ==> r == found.value
  {
    if found.Some? && found.value != [] then found.value else FallbackGroupId
  }

  /** The children of `<dependencies>`, empty when the element is missing and so created. */
  function DependenciesOf(d: Option<seq<XmlNode>>): seq<XmlNode> {
    if d.Some? then d.value else []
  }

  /** The artifacts `ensureDependenciesInPom` appends to a manifest with the given dependencies. */
  function Appended(dependencies: Option<seq<XmlNode>>, artifactIds: seq<string>): (r: seq<string>)
    ensures forall i :: 0 <= i < |r| ==> r[i] !in ExistingIds(DependenciesOf(dependencies)) && r[i] in artifactIds
    ensures forall i, j :: 0 <= i < j < |r| ==> r[i] != r[j]
  {
    Added(ExistingIds(DependenciesOf(dependencies)), artifactIds)
  }

  /**
   * `ensureDependenciesInPom`: one `<dependency>` appended per artifact not yet listed,
   * each at most once; the manifest is written back only when something was appended.
   */
  method EnsureDependenciesInPom(pom: Manifest, artifactIds: seq<string>) returns (changed: bool)
    modifies pom
    ensures var added := Appended(old(pom.dependencies), artifactIds);
      && (changed <==> added != [])
      && (changed ==> pom.dependencies == Some(DependenciesOf(old(pom.dependencies)) + NewDependencies(pom.groupId, added)))
      && (!changed ==> pom.dependencies == old(pom.dependencies))
  {
    var deps := DependenciesOf(pom.dependencies);
    var existing := CollectExistingArtifactIds(deps);
    ghost var known := existing;
    var appended: seq<XmlNode> := [];
    changed := false;
    var i := 0;
    while i < |artifactIds|
      invariant 0 <= i <= |artifactIds|
      invariant appended == NewDependencies(pom.groupId, Added(known, artifactIds[..i]))
      invariant existing == known + NameSet(Added(known, artifactIds[..i]))
      invariant changed <==> Added(known, artifactIds[..i]) != []
    {
      var a := artifactIds[i];
      ghost var before := Added(known, artifactIds[..i]);
      assert artifactIds[..i + 1][..i] == artifactIds[..i];
      assert a in existing <==> a in known || a in before;
      if a !in existing {
        appended := appended + [NewDependency(pom.groupId, a)];
        existing := existing + {a};
        changed := true;
        assert Added(known, artifactIds[..i + 1]) == before + [a];
        assert NameSet(before + [a]) == NameSet(before) + {a};
      } else {
        assert Added(known, artifactIds[..i + 1]) == before;
      }
      i := i + 1;
    }
    assert artifactIds[..|artifactIds|] == artifactIds;
    if changed {
      pom.dependencies := Some(deps + appended);
    }
  }

  /**
   * Running the append twice adds nothing the second time, provided the artifactIds carry
   * no white space around them: the listed ids are read back trimmed.
   */
  lemma AppendIdempotent(dependencies: Option<seq<XmlNode>>, groupId: string, artifactIds: seq<string>)
    requires forall a :: a in artifactIds ==> Bare(a)
    ensures var added := Appended(dependencies, artifactIds);
      Appended(Some(DependenciesOf(dependencies) + NewDependencies(groupId, added)), artifactIds) == []
  {
    var deps := DependenciesOf(dependencies);
    var added := Appended(dependencies, artifactIds);
    NewDependenciesListed(groupId, added);
    ExistingIdsAppend(deps, NewDependencies(groupId, added));
    var known := ExistingIds(deps + NewDependencies(groupId, added));
    forall i | 0 <= i < |artifactIds| ensures artifactIds[i] in known {
      if artifactIds[i] !in ExistingIds(deps) {
        var k :| 0 <= k < |added| && added[k] == artifactIds[i];
      }
    }
    AddedNothing(known, artifactIds);
  }

  /**
   * A changed source file as `fixMissingModuleDependencies` sees it: its path (`None` for a
   * `null` entry), whether it exists, its lines, and the manifest of its module root
   * (`None` when no directory up the tree holds a `pom.xml`), as an index into the manifests.
   */
  datatype ChangedFile = ChangedFile(path: Option<string>, present: bool, lines: seq<string>, manifest: Option<nat>)

  /** The manifest a changed file leads to, if the loop reaches `ensureDependenciesInPom` for it. */
  predicate Targets(f: ChangedFile, poms: seq<Manifest>, p: Manifest) {
    f.path.Some? && f.present && f.manifest.Some? && f.manifest.value < |poms| && poms[f.manifest.value] == p
  }

  /**
   * `fixMissingModuleDependencies`: for each changed file that exists and has a module
   * manifest, the artifacts its imports need are appended to that manifest. A manifest no
   * file leads to is left as it was; a `null` or empty list changes nothing.
   */
  method FixMissingModuleDependencies(modifiedFiles: Option<seq<ChangedFile>>, resolver: Resolver, poms: seq<Manifest>)
    modifies set p | p in poms
    ensures modifiedFiles.None? || modifiedFiles.value == [] ==>
      forall p :: p in poms ==> p.dependencies == old(p.dependencies)
    ensures modifiedFiles.Some? ==> forall p :: p in poms && (forall f :: f in modifiedFiles.value ==> !Targets(f, poms, p)) ==>
      p.dependencies == old(p.dependencies)
  {
    if modifiedFiles.None? || modifiedFiles.value == [] {
      return;
    }
    var files := modifiedFiles.value;
    var i := 0;
    while i < |files|
      invariant 0 <= i <= |files|
      invariant forall p :: p in poms && (forall k :: 0 <= k < i ==> !Targets(files[k], poms, p)) ==>
        p.dependencies == old(p.dependencies)
    {
      var f := files[i];
      if f.path.Some? && f.present && f.manifest.Some? && f.manifest.value < |poms| {
        var needed := DetectNeededArtifacts(f.lines, resolver);
        if needed != [] {
          var pom := poms[f.manifest.value];
          assert Targets(f, poms, pom);
          var _ := EnsureDependenciesInPom(pom, needed);
        }
      }
      i := i + 1;
    }
    assert forall p :: p in poms && (forall g :: g in files ==> !Targets(g, poms, p)) ==>
      forall k :: 0 <= k < |files| ==> !Targets(files[k], poms, p);
  }
}
