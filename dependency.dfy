/**
 * The dependency analysis run before a pull-up: it scans the method for field
 * accesses and calls whose declaring type is the containing class or one of
 * its subclasses, and records them together with human-readable issues.
 * It never blocks the refactoring: the flag that would is never set.
 */
module DependencyAnalyzer {
  import opened Common
  import opened JavaModel

  function PrivateFieldIssue(name: string): string {
    "引用了私有字段: " + name + " (将自动上提)"
  }

  function PrivateMethodIssue(name: string): string {
    "调用了私有方法: " + name + " (将上提为抽象方法)"
  }

  function SubclassMethodIssue(name: string): string {
    "调用了子类方法: " + name + " (将上提为抽象方法)"
  }

  /** The test of isChildClassMember: the type is the containing class itself, or a class of the model strictly below it. */
  predicate OwnOrSubclass(h: Hierarchy, containing: nat, t: Type)
    requires Acyclic(h)
  {
    t == ClassType(containing) || (t.ClassType? && IsClass(h, t.index) && IsStrictAncestor(h, containing, t.index))
  }

  /**
   * isSubclassOf: walks the superclass references from `child`'s superclass
   * up, comparing each with the parent, and stops where a reference does not
   * resolve to a class. The relation is strict.
   */
  method IsSubclassOf(h: Hierarchy, child: nat, parent: nat) returns (r: bool)
    requires Acyclic(h) && child < |h| && IsClass(h, parent)
    ensures r == IsStrictAncestor(h, parent, child)
  {
    var superClass := h[child].superclass;
    ghost var at: nat := child;
    while superClass != Absent
      invariant at < |h| && superClass == h[at].superclass
      invariant ClassType(parent) in SuperclassRefs(h, child) <==> ClassType(parent) in SuperclassRefs(h, at)
      decreases Depth(h, at)
    {
      if superClass == ClassType(parent) {
        SuperclassRefsAncestors(h, child, parent);
        return true;
      }
      if superClass.ClassType? && superClass.index < |h| && !h[superClass.index].isInterface {
        ParentDepth(h, at);
        at := superClass.index;
        superClass := h[superClass.index].superclass;
      } else {
        break;
      }
    }
    SuperclassRefsAncestors(h, child, parent);
    return false;
  }

  /** What the scan has recorded so far. */
  datatype Findings = Findings(fields: set<Field>, methods: set<Method>, issues: set<string>)

  /** The field a reference makes the scanner record, if any (checkFieldReference). */
  function RecordedField(h: Hierarchy, s: State, containing: nat, e: Elem): Option<Field>
    requires Acyclic(h)
  {
    if e.FieldAccess? && OwnOrSubclass(h, containing, e.declaring) then FieldDeclaration(s, e.declaring, e.field)
    else None
  }

  /** The method a reference makes the scanner record, if any (checkMethodReference). */
  function RecordedMethod(h: Hierarchy, s: State, containing: nat, e: Elem): Option<Method>
    requires Acyclic(h)
  {
    if e.Call? && OwnOrSubclass(h, containing, e.declaring) then
      match MethodDeclaration(s, e.kind, e.declaring, e.name, e.paramTypes)
      case None => None
      case Some(k) => Some(s[e.declaring.index].methods[k])
    else None
  }

  /** The issue a reference adds, if any: a private recorded field, or any recorded method. */
  function IssueOf(h: Hierarchy, s: State, containing: nat, e: Elem): Option<string>
    requires Acyclic(h)
  {
    match RecordedField(h, s, containing, e)
    case Some(f) => if Private in f.modifiers then Some(PrivateFieldIssue(e.field)) else None
    case None =>
      match RecordedMethod(h, s, containing, e)
      case Some(m) => Some(if Private in m.modifiers then PrivateMethodIssue(e.name) else SubclassMethodIssue(e.name))
      case None => None
  }

  function Visit(h: Hierarchy, s: State, containing: nat, acc: Findings, e: Elem): Findings
    requires Acyclic(h)
  {
    var fields := match RecordedField(h, s, containing, e) case Some(f) => {f} case None => {};
    var methods := match RecordedMethod(h, s, containing, e) case Some(m) => {m} case None => {};
    var issues := match IssueOf(h, s, containing, e) case Some(x) => {x} case None => {};
    Findings(acc.fields + fields, acc.methods + methods, acc.issues + issues)
  }

  /** What scanning `elems` in order records, starting from nothing. */
  function Scanned(h: Hierarchy, s: State, containing: nat, elems: seq<Elem>): Findings
    requires Acyclic(h)
  {
    if elems == [] then Findings({}, {}, {})
    else Visit(h, s, containing, Scanned(h, s, containing, elems[..|elems| - 1]), elems[|elems| - 1])
  }

  /** One more reference adds the field it records to those the references before it recorded. */
  lemma ScanStepFields(h: Hierarchy, s: State, containing: nat, elems: seq<Elem>)
    requires Acyclic(h) && elems != []
    ensures forall f :: f in Scanned(h, s, containing, elems).fields <==>
      f in Scanned(h, s, containing, elems[..|elems| - 1]).fields || RecordedField(h, s, containing, elems[|elems| - 1]) == Some(f)
  {
  }

  /** One more reference adds the method it records to those the references before it recorded. */
  lemma ScanStepMethods(h: Hierarchy, s: State, containing: nat, elems: seq<Elem>)
    requires Acyclic(h) && elems != []
    ensures forall m :: m in Scanned(h, s, containing, elems).methods <==>
      m in Scanned(h, s, containing, elems[..|elems| - 1]).methods || RecordedMethod(h, s, containing, elems[|elems| - 1]) == Some(m)
  {
  }

  /** One more reference adds the issue it raises to those the references before it raised. */
  lemma ScanStepIssues(h: Hierarchy, s: State, containing: nat, elems: seq<Elem>)
    requires Acyclic(h) && elems != []
    ensures forall x :: x in Scanned(h, s, containing, elems).issues <==>
      x in Scanned(h, s, containing, elems[..|elems| - 1]).issues || IssueOf(h, s, containing, elems[|elems| - 1]) == Some(x)
  {
  }

  lemma {:induction false} ScannedFieldsComplete(h: Hierarchy, s: State, containing: nat, elems: seq<Elem>, f: Field, i: nat)
    requires Acyclic(h) && i < |elems| && RecordedField(h, s, containing, elems[i]) == Some(f)
    ensures f in Scanned(h, s, containing, elems).fields
    decreases |elems|
  {
    var init := elems[..|elems| - 1];
    ScanStepFields(h, s, containing, elems);
    if i < |init| {
      assert init[i] == elems[i];
      ScannedFieldsComplete(h, s, containing, init, f, i);
    } else {
      assert i == |elems| - 1;
    }
  }

  lemma {:induction false} ScannedFieldsSound(h: Hierarchy, s: State, containing: nat, elems: seq<Elem>, f: Field) returns (i: nat)
    requires Acyclic(h) && f in Scanned(h, s, containing, elems).fields
    ensures i < |elems| && RecordedField(h, s, containing, elems[i]) == Some(f)
    decreases |elems|
  {
    var init := elems[..|elems| - 1];
    ScanStepFields(h, s, containing, elems);
    if f in Scanned(h, s, containing, init).fields {
      i := ScannedFieldsSound(h, s, containing, init, f);
      assert init[i] == elems[i];
    } else {
      i := |elems| - 1;
    }
  }

  /** The recorded fields are exactly those of references declared on the containing class or a subclass. */
  lemma ScannedFields(h: Hierarchy, s: State, containing: nat, elems: seq<Elem>, f: Field)
    requires Acyclic(h)
    ensures f in Scanned(h, s, containing, elems).fields
            <==> exists i :: 0 <= i < |elems| && RecordedField(h, s, containing, elems[i]) == Some(f)
  {
    if f in Scanned(h, s, containing, elems).fields {
      var i := ScannedFieldsSound(h, s, containing, elems, f);
    }
    if exists i :: 0 <= i < |elems| && RecordedField(h, s, containing, elems[i]) == Some(f) {
      var i :| 0 <= i < |elems| && RecordedField(h, s, containing, elems[i]) == Some(f);
      ScannedFieldsComplete(h, s, containing, elems, f, i);
    }
  }

  lemma {:induction false} ScannedMethodsComplete(h: Hierarchy, s: State, containing: nat, elems: seq<Elem>, m: Method, i: nat)
    requires Acyclic(h) && i < |elems| && RecordedMethod(h, s, containing, elems[i]) == Some(m)
    ensures m in Scanned(h, s, containing, elems).methods
    decreases |elems|
  {
    var init := elems[..|elems| - 1];
    ScanStepMethods(h, s, containing, elems);
    if i < |init| {
      assert init[i] == elems[i];
      ScannedMethodsComplete(h, s, containing, init, m, i);
    } else {
      assert i == |elems| - 1;
    }
  }

  lemma {:induction false} ScannedMethodsSound(h: Hierarchy, s: State, containing: nat, elems: seq<Elem>, m: Method) returns (i: nat)
    requires Acyclic(h) && m in Scanned(h, s, containing, elems).methods
    ensures i < |elems| && RecordedMethod(h, s, containing, elems[i]) == Some(m)
    decreases |elems|
  {
    var init := elems[..|elems| - 1];
    ScanStepMethods(h, s, containing, elems);
    if m in Scanned(h, s, containing, init).methods {
      i := ScannedMethodsSound(h, s, containing, init, m);
      assert init[i] == elems[i];
    } else {
      i := |elems| - 1;
    }
  }

  /** The recorded methods are exactly those that calls declared on the containing class or a subclass resolve to. */
  lemma ScannedMethods(h: Hierarchy, s: State, containing: nat, elems: seq<Elem>, m: Method)
    requires Acyclic(h)
    ensures m in Scanned(h, s, containing, elems).methods
            <==> exists i :: 0 <= i < |elems| && RecordedMethod(h, s, containing, elems[i]) == Some(m)
  {
    if m in Scanned(h, s, containing, elems).methods {
      var i := ScannedMethodsSound(h, s, containing, elems, m);
    }
    if exists i :: 0 <= i < |elems| && RecordedMethod(h, s, containing, elems[i]) == Some(m) {
      var i :| 0 <= i < |elems| && RecordedMethod(h, s, containing, elems[i]) == Some(m);
      ScannedMethodsComplete(h, s, containing, elems, m, i);
    }
  }

  lemma {:induction false} ScannedIssuesComplete(h: Hierarchy, s: State, containing: nat, elems: seq<Elem>, x: string, i: nat)
    requires Acyclic(h) && i < |elems| && IssueOf(h, s, containing, elems[i]) == Some(x)
    ensures x in Scanned(h, s, containing, elems).issues
    decreases |elems|
  {
    var init := elems[..|elems| - 1];
    ScanStepIssues(h, s, containing, elems);
    if i < |init| {
      assert init[i] == elems[i];
      ScannedIssuesComplete(h, s, containing, init, x, i);
    } else {
      assert i == |elems| - 1;
    }
  }

  lemma {:induction false} ScannedIssuesSound(h: Hierarchy, s: State, containing: nat, elems: seq<Elem>, x: string) returns (i: nat)
    requires Acyclic(h) && x in Scanned(h, s, containing, elems).issues
    ensures i < |elems| && IssueOf(h, s, containing, elems[i]) == Some(x)
    decreases |elems|
  {
    var init := elems[..|elems| - 1];
    ScanStepIssues(h, s, containing, elems);
    if x in Scanned(h, s, containing, init).issues {
      i := ScannedIssuesSound(h, s, containing, init, x);
      assert init[i] == elems[i];
    } else {
      i := |elems| - 1;
    }
  }

  /** Every issue comes from one reference: a private recorded field, or a recorded method. */
  lemma ScannedIssues(h: Hierarchy, s: State, containing: nat, elems: seq<Elem>, x: string)
    requires Acyclic(h)
    ensures x in Scanned(h, s, containing, elems).issues
            <==> exists i :: 0 <= i < |elems| && IssueOf(h, s, containing, elems[i]) == Some(x)
  {
    if x in Scanned(h, s, containing, elems).issues {
      var i := ScannedIssuesSound(h, s, containing, elems, x);
    }
    if exists i :: 0 <= i < |elems| && IssueOf(h, s, containing, elems[i]) == Some(x) {
      var i :| 0 <= i < |elems| && IssueOf(h, s, containing, elems[i]) == Some(x);
      ScannedIssuesComplete(h, s, containing, elems, x, i);
    }
  }

  /**
   * A reference records a member only when its declaring type is the
   * containing class or a class strictly below it; a non-private field adds
   * no issue and a recorded method adds exactly one, worded by its privacy.
   */
  lemma RecordingRule(h: Hierarchy, s: State, containing: nat, e: Elem)
    requires Acyclic(h)
    ensures RecordedField(h, s, containing, e).Some? || RecordedMethod(h, s, containing, e).Some?
            ==> e.declaring.ClassType? && (e.declaring.index == containing || IsStrictAncestor(h, containing, e.declaring.index))
    ensures RecordedField(h, s, containing, e).Some? ==>
              IssueOf(h, s, containing, e) == if Private in RecordedField(h, s, containing, e).value.modifiers then Some(PrivateFieldIssue(e.field)) else None
    ensures RecordedMethod(h, s, containing, e).Some? ==>
              IssueOf(h, s, containing, e) == Some(if Private in RecordedMethod(h, s, containing, e).value.modifiers then PrivateMethodIssue(e.name) else SubclassMethodIssue(e.name))
  {
  }

  /** DependencyAnalysisResult: what was recorded, and the flag canBePulledUp negates. Its getters hand out copies of these values. */
  datatype DependencyAnalysisResult = DependencyAnalysisResult(
    hasChildClassDependencies: bool,
    referencedFields: set<Field>,
    referencedMethods: set<Method>,
    dependencyIssues: set<string>)
  {
    predicate CanBePulledUp() {
      !hasChildClassDependencies
    }
  }

  /** DependencyScanner: the sets it fills while visiting the references of the scanned method. */
  class DependencyScanner {
    const types: Hierarchy
    const members: State
    const containingClass: nat
    var referencedFields: set<Field>
    var referencedMethods: set<Method>
    var dependencyIssues: set<string>
    var hasChildClassDependencies: bool

    function Recorded(): Findings
      reads this
    {
      Findings(referencedFields, referencedMethods, dependencyIssues)
    }

    constructor (types: Hierarchy, members: State, containingClass: nat)
      requires Acyclic(types) && IsClass(types, containingClass)
      ensures this.types == types && this.members == members && this.containingClass == containingClass
      ensures Recorded() == Findings({}, {}, {}) && !hasChildClassDependencies
    {
      this.types := types;
      this.members := members;
      this.containingClass := containingClass;
      referencedFields := {};
      referencedMethods := {};
      dependencyIssues := {};
      hasChildClassDependencies := false;
    }

    /** isChildClassMember. */
    method IsChildClassMember(t: Type) returns (r: bool)
      requires Acyclic(types) && IsClass(types, containingClass)
      ensures r == OwnOrSubclass(types, containingClass, t)
    {
      if t == ClassType(containingClass) {
        return true;
      }
      if t.ClassType? && t.index < |types| && !types[t.index].isInterface {
        r := IsSubclassOf(types, t.index, containingClass);
        return r;
      }
      return false;
    }

    /** checkFieldReference, for a field read or write. */
    method CheckFieldReference(e: Elem)
      requires Acyclic(types) && IsClass(types, containingClass) && e.FieldAccess?
      modifies this
      ensures Recorded() == Visit(types, members, containingClass, old(Recorded()), e)
      ensures hasChildClassDependencies == old(hasChildClassDependencies)
    {
      if e.declaring == Absent {
        return;
      }
      var child := IsChildClassMember(e.declaring);
      if child {
        var field := FieldDeclaration(members, e.declaring, e.field);
        if field.Some? {
          referencedFields := referencedFields + {field.value};
          if Private in field.value.modifiers {
            dependencyIssues := dependencyIssues + {PrivateFieldIssue(e.field)};
          }
        }
      }
    }

    /** checkMethodReference, for a method invocation or a constructor call. */
    method CheckMethodReference(e: Elem)
      requires Acyclic(types) && IsClass(types, containingClass) && e.Call?
      modifies this
      ensures Recorded() == Visit(types, members, containingClass, old(Recorded()), e)
      ensures hasChildClassDependencies == old(hasChildClassDependencies)
    {
      if e.declaring == Absent {
        return;
      }
      var child := IsChildClassMember(e.declaring);
      if child {
        var executable := MethodDeclaration(members, e.kind, e.declaring, e.name, e.paramTypes);
        if executable.Some? {
          var callee := members[e.declaring.index].methods[executable.value];
          referencedMethods := referencedMethods + {callee};
          if Private in callee.modifiers {
            dependencyIssues := dependencyIssues + {PrivateMethodIssue(e.name)};
          } else {
            dependencyIssues := dependencyIssues + {SubclassMethodIssue(e.name)};
          }
        }
      }
    }

    /** The scan of a method: each field access and call of its body, in visiting order. */
    method Scan(elems: seq<Elem>)
      requires Acyclic(types) && IsClass(types, containingClass) && Recorded() == Findings({}, {}, {})
      modifies this
      ensures Recorded() == Scanned(types, members, containingClass, elems)
      ensures hasChildClassDependencies == old(hasChildClassDependencies)
    {
      var i := 0;
      while i < |elems|
        invariant 0 <= i <= |elems|
        invariant Recorded() == Scanned(types, members, containingClass, elems[..i])
        invariant hasChildClassDependencies == old(hasChildClassDependencies)
      {
        assert elems[..i + 1][..i] == elems[..i];
        ghost var next := Visit(types, members, containingClass, Recorded(), elems[i]);
        assert Scanned(types, members, containingClass, elems[..i + 1]) == next;
        if elems[i].FieldAccess? {
          CheckFieldReference(elems[i]);
        } else if elems[i].Call? {
          CheckMethodReference(elems[i]);
        } else {
          assert next == Recorded();
        }
        i := i + 1;
      }
      assert elems[..|elems|] == elems;
    }
  }

  /**
   * analyzeDependencies: scans the method with a fresh scanner and returns
   * what it recorded. canBePulledUp always holds, because nothing ever sets
   * the scanner's flag.
   */
  method AnalyzeDependencies(h: Hierarchy, s: State, m: Method, containing: nat) returns (r: DependencyAnalysisResult)
    requires Acyclic(h) && IsClass(h, containing)
    ensures Findings(r.referencedFields, r.referencedMethods, r.dependencyIssues) == Scanned(h, s, containing, BodyElems(m))
    ensures r.CanBePulledUp()
  {
    var scanner := new DependencyScanner(h, s, containing);
    scanner.Scan(BodyElems(m));
    r := DependencyAnalysisResult(scanner.hasChildClassDependencies, scanner.referencedFields,
                                  scanner.referencedMethods, scanner.dependencyIssues);
  }
}
