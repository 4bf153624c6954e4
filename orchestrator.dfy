/**
 * The entry point of the refactoring: pullUpMethodToAncestor's gates, the
 * prechecks, the migration that runs the handlers one after the other, the
 * alignment of the descendants' counterparts, and the ancestor listing.
 * Building the model, saving the snapshot, writing files and repairing build
 * files happen outside the code model: the model built is a parameter that
 * may be null, and the files written are a parameter too.
 */
module RefactoringOrchestrator {
  import opened Common
  import opened JavaModel
  import opened RefactoringResults
  import ClassFinder
  import DependencyAnalyzer
  import MethodConflictChecker
  import VisibilityAdjuster
  import VisibilityHandler
  import ReturnTypeAdjuster
  import ThisCastFix
  import FieldPullUp
  import MethodPullUp

  function Failure(message: string): Outcome {
    Outcome(false, message, [], [])
  }

  // ------------------------------------------------------ the gates

  /** Where the refactoring works: the origin, its method's position, the destination; or why it cannot start. */
  datatype Location = Located(child: nat, k: nat, parent: nat) | NotLocated(message: string)

  /**
   * Steps 2 and 3 of pullUpMethodToAncestor: the origin class by name, its
   * first method by name, then the destination, which is the direct
   * superclass when no target is named and otherwise the named class, which
   * must be an ancestor of the origin.
   */
  function Locate(h: Hierarchy, s: State, childName: string, methodName: string, target: Option<string>): (r: Location)
    requires Acyclic(h) && |s| == |h|
    ensures r.Located? ==> IsClass(h, r.child) && r.k < |s[r.child].methods| && s[r.child].methods[r.k].name == methodName
                           && IsClass(h, r.parent) && IsStrictAncestor(h, r.parent, r.child)
  {
    match ClassFinder.ClassNamed(h, childName)
    case None => NotLocated("找不到指定的子类: " + childName)
    case Some(child) =>
      match ClassFinder.FindMethod(s[child].methods, methodName)
      case None => NotLocated("在类 " + childName + " 中找不到方法: " + methodName)
      case Some(k) =>
        if target.None? then
          match Parent(h, child)
          case None => NotLocated("类 " + childName + " 没有父类或父类无法解析")
          case Some(p) => Located(child, k, p)
        else
          match ClassFinder.ClassNamed(h, target.value)
          case None => NotLocated("找不到指定的目标祖先类: " + target.value)
          case Some(a) =>
            if !IsStrictAncestor(h, a, child) then NotLocated("类 " + target.value + " 不是 " + childName + " 的祖先类")
            else Located(child, k, a)
  }

  /** With no target named, the destination is the origin's direct superclass, and it fails only when that does not resolve. */
  lemma DefaultTargetIsDirectSuperclass(h: Hierarchy, s: State, childName: string, methodName: string)
    requires Acyclic(h) && |s| == |h|
    ensures var r := Locate(h, s, childName, methodName, None);
            var c := ClassFinder.ClassNamed(h, childName);
            && (r.Located? ==> c == Some(r.child) && Parent(h, r.child) == Some(r.parent))
            && (c.Some? && ClassFinder.FindMethod(s[c.value].methods, methodName).Some? ==>
                  (r.Located? <==> Parent(h, c.value).Some?))
  {
  }

  /**
   * Naming the direct superclass, when its qualified name finds it, locates
   * the same destination as naming no target.
   */
  lemma NamedSuperclassSameAsDefault(h: Hierarchy, s: State, childName: string, methodName: string, p: nat)
    requires Acyclic(h) && |s| == |h|
    requires ClassFinder.ClassNamed(h, childName).Some? && Parent(h, ClassFinder.ClassNamed(h, childName).value) == Some(p)
    requires ClassFinder.ClassNamed(h, h[p].qname) == Some(p)
    ensures Locate(h, s, childName, methodName, Some(h[p].qname)) == Locate(h, s, childName, methodName, None)
  {
    var c := ClassFinder.ClassNamed(h, childName).value;
    assert p in Ancestors(h, c);
  }

  // ------------------------------------------------------ the prechecks

  /** The warnings the dependency issues become, in the iteration order of the issue set. */
  function DependencyWarnings(h: Hierarchy, s: State, m: Method, child: nat, issueOrder: set<string> -> seq<string>): seq<string>
    requires Acyclic(h)
  {
    MethodPullUp.Prefixed("依赖警告: ", issueOrder(DependencyAnalyzer.Scanned(h, s, child, BodyElems(m)).issues))
  }

  /** The warning announcing the visibility the moved method will get, if it needs one. */
  function VisibilityWarning(m: Method): seq<string> {
    if VisibilityAdjuster.NeedsVisibilityAdjustment(m) then
      ["方法可见性将被调整为: " + VisibilityText(VisibilityAdjuster.SuggestedVisibility(m))]
    else []
  }

  /**
   * performPreChecks: the dependency analysis (which never blocks), then the
   * conflict check, whose failure is fatal, then the visibility warning.
   */
  function PreChecks(h: Hierarchy, s: State, m: Method, child: nat, parent: nat, issueOrder: set<string> -> seq<string>): Outcome
    requires Acyclic(h) && |s| == |h| && parent < |h|
  {
    var conflict := MethodConflictChecker.CheckConflictCorrected(h, s, m, Some(parent));
    if !conflict.success then Failure("方法冲突检查失败: " + conflict.message)
    else Outcome(true, "预检查通过", DependencyWarnings(h, s, m, child, issueOrder) + VisibilityWarning(m), [])
  }

  method PerformPreChecks(h: Hierarchy, s: State, m: Method, child: nat, parent: nat, issueOrder: set<string> -> seq<string>)
    returns (result: Outcome)
    requires Acyclic(h) && |s| == |h| && IsClass(h, child) && parent < |h|
    ensures result == PreChecks(h, s, m, child, parent, issueOrder)
  {
    var dependencyResult := DependencyAnalyzer.AnalyzeDependencies(h, s, m, child);
    // canBePulledUp always holds, so the analysis never ends the checks here.
    var warnings := MethodPullUp.Prefixed("依赖警告: ", issueOrder(dependencyResult.dependencyIssues));
    var conflictResult := MethodConflictChecker.CheckConflictCorrected(h, s, m, Some(parent));
    if !conflictResult.success {
      return Failure("方法冲突检查失败: " + conflictResult.message);
    }
    if VisibilityAdjuster.NeedsVisibilityAdjustment(m) {
      warnings := warnings + ["方法可见性将被调整为: " + VisibilityText(VisibilityAdjuster.SuggestedVisibility(m))];
    }
    result := Outcome(true, "预检查通过", warnings, []);
  }

  /**
   * The prechecks fail exactly when the conflict check does, DUPLICATE
   * included; a success carries one warning per dependency issue, then one
   * visibility warning exactly when the method is private or package-private.
   */
  lemma PreChecksOutcome(h: Hierarchy, s: State, m: Method, child: nat, parent: nat, issueOrder: set<string> -> seq<string>)
    requires Acyclic(h) && |s| == |h| && parent < |h| && IsEnumerator(issueOrder)
    ensures var r := PreChecks(h, s, m, child, parent, issueOrder);
            var conflict := MethodConflictChecker.CheckConflictCorrected(h, s, m, Some(parent));
            var issues := DependencyAnalyzer.Scanned(h, s, child, BodyElems(m)).issues;
            && (r.success <==> conflict.success)
            && (conflict.conflictType == MethodConflictChecker.DUPLICATE ==> !r.success)
            && (!r.success ==> r.message == "方法冲突检查失败: " + conflict.message && r.warnings == [])
            && (r.success ==>
                  && |r.warnings| == |issues| + (if VisibilityAdjuster.NeedsVisibilityAdjustment(m) then 1 else 0)
                  && (forall i :: 0 <= i < |issues| ==> r.warnings[i] == "依赖警告: " + issueOrder(issues)[i])
                  && (VisibilityAdjuster.NeedsVisibilityAdjustment(m) <==>
                        |r.warnings| > |issues| && r.warnings[|issues|] == "方法可见性将被调整为: " + VisibilityText(Some(Protected))))
  {
    MethodConflictChecker.CorrectedSafeIff(h, s, m, parent);
    var issues := DependencyAnalyzer.Scanned(h, s, child, BodyElems(m)).issues;
    assert |issueOrder(issues)| == |issues| by {
      assert Enumerates(issueOrder(issues), issues);
      assert |multiset(issueOrder(issues))| == |multiset(issues)|;
    }
  }

  // ------------------------------------------------------ the migration

  /** Steps 1 to 3.1 of performMethodMigration: the copy with its visibility raised, its return type reconciled and its `this` arguments cast. */
  function Prepared(h: Hierarchy, s: State, m: Method, child: nat, parent: nat, typeOrder: set<Type> -> seq<Type>): Method
    requires Acyclic(h) && |s| == |h| && child < |h| && IsEnumerator(typeOrder)
  {
    var visible := VisibilityAdjuster.Adjustment(m).1;
    var retyped := ReturnTypeAdjuster.Adjustment(h, s, visible, child, parent, typeOrder).1;
    ThisCastFix.FixThisCasts(h, retyped, child, parent)
  }

  /** At least protected, whichever of the two visibility readers looks: no `private`, and `protected` or `public`. */
  predicate AtLeastProtected(mods: set<Modifier>) {
    Private !in mods && (Protected in mods || Public in mods)
  }

  /**
   * The copy keeps the original's name, parameters, annotations and thrown
   * types and its modifiers other than visibility, and it is at least
   * protected; its return type changes only when the adjuster reports a change.
   */
  lemma PreparedCopy(h: Hierarchy, s: State, m: Method, child: nat, parent: nat, typeOrder: set<Type> -> seq<Type>)
    requires Acyclic(h) && |s| == |h| && child < |h| && IsEnumerator(typeOrder)
    ensures var c := Prepared(h, s, m, child, parent, typeOrder);
            var visible := VisibilityAdjuster.Adjustment(m).1;
            var rt := ReturnTypeAdjuster.Adjustment(h, s, visible, child, parent, typeOrder).0;
            && c.name == m.name && c.params == m.params && c.annotations == m.annotations && c.thrown == m.thrown
            && AtLeastProtected(c.modifiers)
            && (forall k :: !IsVisibilityModifier(k) ==> (k in c.modifiers <==> k in m.modifiers))
            && (rt.wasAdjusted ==> c.returnType == rt.adjustedReturnType != Absent)
            && (!rt.wasAdjusted ==> c.returnType == m.returnType)
  {
    var visible := VisibilityAdjuster.Adjustment(m).1;
    var vr := VisibilityAdjuster.Adjustment(m).0;
    var v := VisibilityAdjuster.CurrentVisibility(m.modifiers);
    if !vr.adjusted {
      assert visible == m;
      assert v == Some(Protected) || v == Some(Public);
    } else {
      assert Protected in visible.modifiers && Private !in visible.modifiers;
    }
    ReturnTypeAdjuster.AdjustedCopy(h, s, visible, child, parent, typeOrder);
    var retyped := ReturnTypeAdjuster.Adjustment(h, s, visible, child, parent, typeOrder).1;
    ThisCastFix.FixKeepsShape(h, retyped, child, parent);
  }

  /** The state after the dependent fields, then the dependent methods, of the copy are pulled up. */
  function DependentsMoved(h: Hierarchy, s: State, clone: Method, child: nat, k: nat, parent: nat, crossModule: bool,
                           fieldOrder: set<Field> -> seq<Field>, methodOrder: set<nat> -> seq<nat>): (r: State)
    requires Acyclic(h) && |s| == |h| && child < |h| && parent < |h| && IsEnumerator(fieldOrder) && IsEnumerator(methodOrder)
    ensures |r| == |s|
  {
    var fields := FieldPullUp.DependentFieldsPullUp(h, s, clone, child, parent, crossModule, fieldOrder).0;
    MethodPullUp.DependentMethodsPullUp(h, fields, clone, child, parent, k, Descendants(h, parent), methodOrder).0
  }

  /** addMethod: the copy appended to the destination's methods. */
  function CloneAdded(s: State, parent: nat, clone: Method): (r: State)
    requires parent < |s|
    ensures |r| == |s|
  {
    s[parent := s[parent].(methods := s[parent].methods + [clone])]
  }

  /**
   * The loop of adjustVisibilityForConflictingMethodsInAllDescendants over the
   * first `n` descendants: the first method of each, other than the origin,
   * with the copy's name and parameter types.
   */
  function Counterparts(s: State, classes: seq<nat>, origin: nat, name: string, params: seq<Param>, n: nat): (r: seq<Pos>)
    requires n <= |classes| && forall i :: 0 <= i < |classes| ==> classes[i] < |s|
    ensures forall j :: 0 <= j < |r| ==> ValidPos(s, r[j]) && r[j].cls != origin && r[j].cls in classes[..n]
  {
    if n == 0 then []
    else
      var r := Counterparts(s, classes, origin, name, params, n - 1);
      if classes[n - 1] == origin then r
      else
        match ClassFinder.MatchingMethod(s[classes[n - 1]].methods, name, params)
        case None => r
        case Some(j) => r + [Pos(classes[n - 1], j)]
  }

  /** addOverrideAnnotationProperly on the methods at the first `n` positions, one after the other. */
  function Overridden(s: State, ps: seq<Pos>, n: nat): (r: State)
    requires n <= |ps| && forall i :: 0 <= i < |ps| ==> ValidPos(s, ps[i])
    ensures SameShape(s, r)
  {
    if n == 0 then s
    else
      var t := Overridden(s, ps, n - 1);
      assert ValidPos(s, ps[n - 1]);
      SetMethod(t, ps[n - 1], VisibilityHandler.WithOverride(MethodAt(t, ps[n - 1])))
  }

  /** With counterparts: the declaration's and their visibility unified, then each counterpart given @Override. */
  function Aligned(s: State, declaration: Pos, ps: seq<Pos>): (r: State)
    requires ValidPos(s, declaration) && forall i :: 0 <= i < |ps| ==> ValidPos(s, ps[i])
    ensures SameShape(s, r)
  {
    if ps == [] then s
    else
      var t := VisibilityHandler.Adjusted(s, declaration, ps).0;
      SameShapePositions(s, t, ps);
      Overridden(t, ps, |ps|)
  }

  /** removeMethod: the method at position `k` of class `c` taken out, if there is one. */
  function MethodRemoved(s: State, c: nat, k: nat): (r: State)
    requires c < |s|
    ensures |r| == |s|
  {
    if k < |s[c].methods| then s[c := s[c].(methods := s[c].methods[..k] + s[c].methods[k + 1..])] else s
  }

  /** The copy made for the pull-up of the origin's method number `k`. */
  function Copy(h: Hierarchy, s: State, child: nat, k: nat, parent: nat, typeOrder: set<Type> -> seq<Type>): Method
    requires Acyclic(h) && |s| == |h| && child < |h| && k < |s[child].methods| && IsEnumerator(typeOrder)
  {
    Prepared(h, s, s[child].methods[k], child, parent, typeOrder)
  }

  /**
   * Steps 3.4 and 3.5 of performMethodMigration from the state `moved` the
   * dependents were moved into: the copy appended to the destination, then
   * its counterparts among `descendants` other than the origin aligned with it.
   */
  function CopyAligned(moved: State, clone: Method, child: nat, parent: nat, descendants: seq<nat>): (r: State)
    requires parent < |moved| && forall i :: 0 <= i < |descendants| ==> descendants[i] < |moved|
    ensures |r| == |moved|
  {
    var added := CloneAdded(moved, parent, clone);
    Aligned(added, Pos(parent, |moved[parent].methods|), Counterparts(added, descendants, child, clone.name, clone.params, |descendants|))
  }

  /** performMethodMigration: the state it leaves; it always reports "方法迁移完成". */
  function Migrated(h: Hierarchy, s: State, child: nat, k: nat, parent: nat, crossModule: bool,
                    typeOrder: set<Type> -> seq<Type>, fieldOrder: set<Field> -> seq<Field>, methodOrder: set<nat> -> seq<nat>)
    : (r: State)
    requires Acyclic(h) && |s| == |h| && child < |h| && parent < |h| && k < |s[child].methods|
    requires IsEnumerator(typeOrder) && IsEnumerator(fieldOrder) && IsEnumerator(methodOrder)
    ensures |r| == |s|
  {
    var clone := Copy(h, s, child, k, parent, typeOrder);
    var moved := DependentsMoved(h, s, clone, child, k, parent, crossModule, fieldOrder, methodOrder);
    MethodRemoved(CopyAligned(moved, clone, child, parent, Descendants(h, parent)), child, k)
  }

  /**
   * adjustVisibilityForConflictingMethodsInAllDescendants for the declaration
   * at `declaration`: collects the counterparts, unifies their visibility with
   * the declaration's, and gives each of them @Override.
   */
  method AdjustVisibilityForConflictingMethodsInAllDescendants(w: Workspace, declaration: Pos, descendants: seq<nat>, origin: nat)
    requires w.Valid() && ValidPos(w.members, declaration) && forall i :: 0 <= i < |descendants| ==> descendants[i] < |w.members|
    modifies w
    ensures w.Valid()
    ensures var m := MethodAt(old(w.members), declaration);
            w.members == Aligned(old(w.members), declaration, Counterparts(old(w.members), descendants, origin, m.name, m.params, |descendants|))
  {
    var parentMethod := MethodAt(w.members, declaration);
    var conflictingMethods := CollectCounterparts(w.members, descendants, origin, parentMethod.name, parentMethod.params);
    if conflictingMethods != [] {
      var result := VisibilityHandler.AdjustMethodVisibility(w, declaration, conflictingMethods);
      AddOverrideAnnotations(w, conflictingMethods);
    }
  }

  /** The first loop of adjustVisibilityForConflictingMethodsInAllDescendants. */
  method CollectCounterparts(s: State, descendants: seq<nat>, origin: nat, name: string, params: seq<Param>)
    returns (conflictingMethods: seq<Pos>)
    requires forall i :: 0 <= i < |descendants| ==> descendants[i] < |s|
    ensures conflictingMethods == Counterparts(s, descendants, origin, name, params, |descendants|)
  {
    conflictingMethods := [];
    for i := 0 to |descendants|
      invariant conflictingMethods == Counterparts(s, descendants, origin, name, params, i)
    {
      if descendants[i] != origin {
        var found := ClassFinder.FindMatchingMethod(s[descendants[i]].methods, name, params);
        if found.Some? {
          conflictingMethods := conflictingMethods + [Pos(descendants[i], found.value)];
        }
      }
    }
  }

  /** The second loop: @Override added to each counterpart in turn. */
  method AddOverrideAnnotations(w: Workspace, ps: seq<Pos>)
    requires w.Valid() && forall i :: 0 <= i < |ps| ==> ValidPos(w.members, ps[i])
    modifies w
    ensures w.Valid() && w.members == Overridden(old(w.members), ps, |ps|)
  {
    ghost var s := w.members;
    for i := 0 to |ps|
      invariant w.Valid() && SameShape(s, w.members)
      invariant w.members == Overridden(s, ps, i)
    {
      VisibilityHandler.AddOverrideAnnotationProperly(w, ps[i]);
    }
  }

  method PerformMethodMigration(w: Workspace, child: nat, k: nat, parent: nat, crossModule: bool,
                                typeOrder: set<Type> -> seq<Type>, fieldOrder: set<Field> -> seq<Field>, methodOrder: set<nat> -> seq<nat>)
    returns (result: Outcome)
    requires w.Valid() && IsClass(w.types, child) && IsClass(w.types, parent) && k < |w.members[child].methods|
    requires IsEnumerator(typeOrder) && IsEnumerator(fieldOrder) && IsEnumerator(methodOrder)
    modifies w
    ensures w.Valid()
    ensures w.members == Migrated(w.types, old(w.members), child, k, parent, crossModule, typeOrder, fieldOrder, methodOrder)
    ensures result == Outcome(true, "方法迁移完成", [], [])
  {
    var clonedMethod := PrepareCopy(w.types, w.members, w.members[child].methods[k], child, parent, typeOrder);
    var allDescendantClasses := PullUpDependents(w, clonedMethod, child, k, parent, crossModule, fieldOrder, methodOrder);
    AddAndAlign(w, clonedMethod, child, parent, allDescendantClasses);
    // The imports the copy needs are added to the compilation unit, which the code model does not hold.
    w.members := MethodRemoved(w.members, child, k);
    result := Outcome(true, "方法迁移完成", [], []);
  }

  /** Steps 3.4 and 3.5 of performMethodMigration: addMethod, then the alignment of the counterparts. */
  method AddAndAlign(w: Workspace, clonedMethod: Method, child: nat, parent: nat, descendants: seq<nat>)
    requires w.Valid() && parent < |w.members| && forall i :: 0 <= i < |descendants| ==> descendants[i] < |w.members|
    modifies w
    ensures w.Valid()
    ensures w.members == CopyAligned(old(w.members), clonedMethod, child, parent, descendants)
  {
    var position := |w.members[parent].methods|;
    w.members := CloneAdded(w.members, parent, clonedMethod);
    assert MethodAt(w.members, Pos(parent, position)) == clonedMethod;
    AdjustVisibilityForConflictingMethodsInAllDescendants(w, Pos(parent, position), descendants, child);
  }

  /** Steps 1 to 3.1 of performMethodMigration on the original `m`. */
  method PrepareCopy(h: Hierarchy, s: State, m: Method, child: nat, parent: nat, typeOrder: set<Type> -> seq<Type>)
    returns (clonedMethod: Method)
    requires Acyclic(h) && |s| == |h| && child < |h| && IsClass(h, parent) && IsEnumerator(typeOrder)
    ensures clonedMethod == Prepared(h, s, m, child, parent, typeOrder)
  {
    var visibilityResult, visible := VisibilityAdjuster.AdjustVisibility(m);
    var returnTypeResult, retyped := ReturnTypeAdjuster.AdjustReturnTypeForPullUp(h, s, visible, child, parent, typeOrder);
    clonedMethod := ThisCastFix.FixThisCastsForPulledUpMethod(h, retyped, child, parent);
  }

  /** Steps 3.2 and 3.3 of performMethodMigration; returns the destination's descendants. */
  method PullUpDependents(w: Workspace, clonedMethod: Method, child: nat, k: nat, parent: nat, crossModule: bool,
                          fieldOrder: set<Field> -> seq<Field>, methodOrder: set<nat> -> seq<nat>)
    returns (allDescendantClasses: seq<nat>)
    requires w.Valid() && IsClass(w.types, child) && IsClass(w.types, parent)
    requires IsEnumerator(fieldOrder) && IsEnumerator(methodOrder)
    modifies w
    ensures w.Valid() && allDescendantClasses == Descendants(w.types, parent)
    ensures w.members == DependentsMoved(w.types, old(w.members), clonedMethod, child, k, parent, crossModule, fieldOrder, methodOrder)
  {
    var fieldResult := FieldPullUp.PullUpDependentFields(w, clonedMethod, child, parent, crossModule, fieldOrder);
    allDescendantClasses := FieldPullUp.CollectAllDescendantClasses(w.types, parent);
    var methodResult := MethodPullUp.PullUpDependentMethods(w, clonedMethod, child, parent, k, allDescendantClasses, methodOrder);
  }

  // ------------------------------------------------------ the entry points

  function SuccessMessage(methodName: string, childName: string, destination: string): string {
    "成功将方法 " + methodName + " 从 " + childName + " 上提到 " + destination
  }

  /**
   * pullUpMethodToAncestor on a model that was built: the gates, the
   * prechecks, the migration, and the success result carrying the files
   * written.
   */
  function PullUpToAncestor(h: Hierarchy, s: State, childName: string, methodName: string, target: Option<string>,
                            crossModule: bool, written: seq<string>,
                            typeOrder: set<Type> -> seq<Type>, fieldOrder: set<Field> -> seq<Field>,
                            methodOrder: set<nat> -> seq<nat>, issueOrder: set<string> -> seq<string>)
    : (r: (State, Outcome))
    requires Acyclic(h) && |s| == |h|
    requires IsEnumerator(typeOrder) && IsEnumerator(fieldOrder) && IsEnumerator(methodOrder)
    ensures |r.0| == |s|
  {
    match Locate(h, s, childName, methodName, target)
    case NotLocated(message) => (s, Failure(message))
    case Located(child, k, parent) =>
      var check := PreChecks(h, s, s[child].methods[k], child, parent, issueOrder);
      if !check.success then (s, check)
      else (Migrated(h, s, child, k, parent, crossModule, typeOrder, fieldOrder, methodOrder),
            Outcome(true, SuccessMessage(methodName, childName, h[parent].simpleName), [], written))
  }

  /**
   * pullUpMethodToAncestor: `model` is the model built from the sources, null
   * when it could not be built; `target` None stands for a null target name.
   */
  method PullUpMethodToAncestor(model: Workspace?, childName: string, methodName: string, target: Option<string>,
                                crossModule: bool, written: seq<string>,
                                typeOrder: set<Type> -> seq<Type>, fieldOrder: set<Field> -> seq<Field>,
                                methodOrder: set<nat> -> seq<nat>, issueOrder: set<string> -> seq<string>)
    returns (result: Outcome)
    requires model != null ==> model.Valid()
    requires IsEnumerator(typeOrder) && IsEnumerator(fieldOrder) && IsEnumerator(methodOrder)
    modifies model
    ensures model == null ==> result == Failure("无法构建代码模型")
    ensures model != null ==> model.Valid()
    ensures model != null ==>
              (model.members, result) == PullUpToAncestor(model.types, old(model.members), childName, methodName, target,
                                                          crossModule, written, typeOrder, fieldOrder, methodOrder, issueOrder)
  {
    if model == null {
      return Failure("无法构建代码模型");
    }
    var h := model.types;
    var childClass := ClassFinder.FindClass(h, childName);
    if childClass.None? {
      return Failure("找不到指定的子类: " + childName);
    }
    var child := childClass.value;
    var targetMethod := ClassFinder.FindMethod(model.members[child].methods, methodName);
    if targetMethod.None? {
      return Failure("在类 " + childName + " 中找不到方法: " + methodName);
    }
    var k := targetMethod.value;
    var parent: nat;
    if target.None? {
      var superClass := Parent(h, child);
      if superClass.None? {
        return Failure("类 " + childName + " 没有父类或父类无法解析");
      }
      parent := superClass.value;
    } else {
      var ancestor := ClassFinder.FindClass(h, target.value);
      if ancestor.None? {
        return Failure("找不到指定的目标祖先类: " + target.value);
      }
      if !IsStrictAncestor(h, ancestor.value, child) {
        return Failure("类 " + target.value + " 不是 " + childName + " 的祖先类");
      }
      parent := ancestor.value;
    }
    assert Locate(h, model.members, childName, methodName, target) == Located(child, k, parent);
    var checkResult := PerformPreChecks(h, model.members, model.members[child].methods[k], child, parent, issueOrder);
    if !checkResult.success {
      return checkResult;
    }
    // The migration always succeeds here: the model has no source of exceptions.
    var migrationResult := PerformMethodMigration(model, child, k, parent, crossModule, typeOrder, fieldOrder, methodOrder);
    result := Outcome(true, SuccessMessage(methodName, childName, h[parent].simpleName), [], written);
  }

  /** pullUpMethod: pullUpMethodToAncestor with a null target. */
  method PullUpMethod(model: Workspace?, childName: string, methodName: string, crossModule: bool, written: seq<string>,
                      typeOrder: set<Type> -> seq<Type>, fieldOrder: set<Field> -> seq<Field>,
                      methodOrder: set<nat> -> seq<nat>, issueOrder: set<string> -> seq<string>)
    returns (result: Outcome)
    requires model != null ==> model.Valid()
    requires IsEnumerator(typeOrder) && IsEnumerator(fieldOrder) && IsEnumerator(methodOrder)
    modifies model
    ensures model == null ==> result == Failure("无法构建代码模型")
    ensures model != null ==> model.Valid()
    ensures model != null ==>
              (model.members, result) == PullUpToAncestor(model.types, old(model.members), childName, methodName, None,
                                                          crossModule, written, typeOrder, fieldOrder, methodOrder, issueOrder)
  {
    result := PullUpMethodToAncestor(model, childName, methodName, None, crossModule, written,
                                     typeOrder, fieldOrder, methodOrder, issueOrder);
  }

  function QualifiedNames(h: Hierarchy, cs: seq<nat>): (r: seq<string>)
    requires forall i :: 0 <= i < |cs| ==> cs[i] < |h|
    ensures |r| == |cs| && forall i :: 0 <= i < |cs| ==> r[i] == h[cs[i]].qname
  {
    if cs == [] then [] else [h[cs[0]].qname] + QualifiedNames(h, cs[1..])
  }

  /** getAncestorClassNames: the qualified names of the class's ancestors; empty for a null model or an unknown class. */
  function AncestorClassNames(model: Option<Hierarchy>, className: string): seq<string>
    requires model.Some? ==> Acyclic(model.value)
  {
    if model.None? then []
    else
      match ClassFinder.ClassNamed(model.value, className)
      case None => []
      case Some(c) => QualifiedNames(model.value, Ancestors(model.value, c))
  }

  // ------------------------------------------------------ what the whole refactoring promises

  /**
   * A refactoring that fails leaves the model as it was and reports no
   * warnings and no files; it succeeds exactly when the gates pass and the
   * prechecks do, and then it reports no warnings, the files written, and a
   * message naming the method, the origin and the destination's simple name.
   */
  lemma PullUpOutcome(h: Hierarchy, s: State, childName: string, methodName: string, target: Option<string>,
                      crossModule: bool, written: seq<string>,
                      typeOrder: set<Type> -> seq<Type>, fieldOrder: set<Field> -> seq<Field>,
                      methodOrder: set<nat> -> seq<nat>, issueOrder: set<string> -> seq<string>)
    requires Acyclic(h) && |s| == |h|
    requires IsEnumerator(typeOrder) && IsEnumerator(fieldOrder) && IsEnumerator(methodOrder) && IsEnumerator(issueOrder)
    ensures var (t, r) := PullUpToAncestor(h, s, childName, methodName, target, crossModule, written,
                                           typeOrder, fieldOrder, methodOrder, issueOrder);
            var loc := Locate(h, s, childName, methodName, target);
            && (!r.success ==> t == s && r.warnings == [] && r.modifiedFiles == [])
            && (loc.NotLocated? ==> r == Failure(loc.message))
            && (r.success <==> loc.Located? && PreChecks(h, s, s[loc.child].methods[loc.k], loc.child, loc.parent, issueOrder).success)
            && (r.success ==>
                  && r.warnings == [] && r.modifiedFiles == written
                  && r.message == SuccessMessage(methodName, childName, h[loc.parent].simpleName)
                  && t == Migrated(h, s, loc.child, loc.k, loc.parent, crossModule, typeOrder, fieldOrder, methodOrder))
  {
    var loc := Locate(h, s, childName, methodName, target);
    if loc.Located? {
      PreChecksOutcome(h, s, s[loc.child].methods[loc.k], loc.child, loc.parent, issueOrder);
    }
  }

  /** Moving fields never touches a method: every declaration keeps its methods as they were. */
  lemma {:induction false} FieldsPulledUpKeepMethods(h: Hierarchy, s: State, fs: seq<Field>, child: nat, parent: nat,
                                                     crossModule: bool, n: nat)
    requires Acyclic(h) && |s| == |h| && IsStrictAncestor(h, parent, child) && n <= |fs|
    ensures child < |h| && parent < |h|
    ensures var t := FieldPullUp.FieldsPulledUp(h, s, fs, child, parent, crossModule, n).0;
            forall x :: 0 <= x < |s| ==> t[x].methods == s[x].methods
  {
    NotOwnAncestor(h, child);
    if n > 0 {
      FieldsPulledUpKeepMethods(h, s, fs, child, parent, crossModule, n - 1);
      var before := FieldPullUp.FieldsPulledUp(h, s, fs, child, parent, crossModule, n - 1);
      var after := FieldPullUp.SingleFieldPullUp(h, before.0, fs[n - 1], child, parent, crossModule);
      SingleFieldKeepsMethods(h, before.0, fs[n - 1], child, parent, crossModule);
      assert FieldPullUp.FieldsPulledUp(h, s, fs, child, parent, crossModule, n).0 == after.0;
    }
  }

  lemma SingleFieldKeepsMethods(h: Hierarchy, s: State, f: Field, child: nat, parent: nat, crossModule: bool)
    requires Acyclic(h) && |s| == |h| && IsStrictAncestor(h, parent, child)
    ensures child < |h| && parent < |h|
    ensures var t := FieldPullUp.SingleFieldPullUp(h, s, f, child, parent, crossModule).0;
            forall x :: 0 <= x < |s| ==> t[x].methods == s[x].methods
  {
    NotOwnAncestor(h, child);
    forall x | 0 <= x < |s|
      ensures FieldPullUp.SingleFieldPullUp(h, s, f, child, parent, crossModule).0[x].methods == s[x].methods
    {
      FieldPullUp.SingleFieldPullUpEffect(h, s, f, child, parent, crossModule, x);
    }
  }

  lemma DependentFieldsKeepMethods(h: Hierarchy, s: State, m: Method, child: nat, parent: nat, crossModule: bool,
                                   order: set<Field> -> seq<Field>)
    requires Acyclic(h) && |s| == |h| && IsStrictAncestor(h, parent, child) && IsEnumerator(order)
    ensures child < |h| && parent < |h|
    ensures var t := FieldPullUp.DependentFieldsPullUp(h, s, m, child, parent, crossModule, order).0;
            forall x :: 0 <= x < |s| ==> t[x].methods == s[x].methods
  {
    NotOwnAncestor(h, child);
    var deps := FieldPullUp.DependentFields(h, s, BodyElems(m), child, parent, |BodyElems(m)|);
    if deps != {} {
      var allowed := FieldPullUp.Validation(h, s, deps, parent, order).1;
      FieldsPulledUpKeepMethods(h, s, order(allowed), child, parent, crossModule, |order(allowed)|);
    }
  }

  /** The counterparts are exactly the first method matching the copy in each listed class other than the origin. */
  lemma {:induction false} CounterpartsIff(s: State, classes: seq<nat>, origin: nat, name: string, params: seq<Param>, n: nat, q: Pos)
    requires n <= |classes| && forall i :: 0 <= i < |classes| ==> classes[i] < |s|
    ensures q in Counterparts(s, classes, origin, name, params, n) <==>
              q.cls != origin && q.cls in classes[..n] && ClassFinder.MatchingMethod(s[q.cls].methods, name, params) == Some(q.idx)
  {
    if n > 0 {
      CounterpartsIff(s, classes, origin, name, params, n - 1, q);
      assert classes[..n] == classes[..n - 1] + [classes[n - 1]];
    }
  }

  /** Each position the annotation pass visits gains @Override, with nothing else about it changed; no other method changes. */
  lemma {:induction false} OverriddenAt(s: State, ps: seq<Pos>, n: nat, q: Pos)
    requires n <= |ps| && (forall i :: 0 <= i < |ps| ==> ValidPos(s, ps[i])) && ValidPos(s, q)
    ensures ValidPos(Overridden(s, ps, n), q)
    ensures MethodAt(Overridden(s, ps, n), q) ==
              if q in ps[..n] then VisibilityHandler.WithOverride(MethodAt(s, q)) else MethodAt(s, q)
  {
    if n > 0 {
      OverriddenAt(s, ps, n - 1, q);
      var t := Overridden(s, ps, n - 1);
      var p := ps[n - 1];
      assert ValidPos(s, p);
      assert ValidPos(t, p);
      var u := SetMethod(t, p, VisibilityHandler.WithOverride(MethodAt(t, p)));
      assert Overridden(s, ps, n) == u;
      InPrefixStep(ps, n, q);
      var before := MethodAt(s, q);
      if q == p {
        VisibilityHandler.WithOverrideIdempotent(before);
        assert MethodAt(t, q) == before || MethodAt(t, q) == VisibilityHandler.WithOverride(before);
        assert MethodAt(u, q) == VisibilityHandler.WithOverride(before);
      } else {
        assert MethodAt(u, q) == MethodAt(t, q);
      }
    }
  }

  /** The alignment keeps every method of the model at its place with its signature. */
  lemma AlignedKeeps(s: State, declaration: Pos, ps: seq<Pos>)
    requires ValidPos(s, declaration) && forall i :: 0 <= i < |ps| ==> ValidPos(s, ps[i])
    ensures MethodPullUp.Grows(s, Aligned(s, declaration, ps))
  {
    if ps != [] {
      var t := VisibilityHandler.Adjusted(s, declaration, ps).0;
      MethodPullUp.AdjustedKeeps(s, declaration, ps);
      var u := Overridden(t, ps, |ps|);
      forall c, j | 0 <= c < |t| && 0 <= j < |t[c].methods|
        ensures MethodPullUp.SignatureOf(u[c].methods[j]) == MethodPullUp.SignatureOf(t[c].methods[j])
      {
        OverriddenAt(t, ps, |ps|, Pos(c, j));
      }
      MethodPullUp.GrowsTrans(s, t, u);
    }
  }

  /**
   * After the alignment the declaration is the one added, with only its
   * visibility possibly changed, to protected or public; each counterpart
   * has @Override and the declaration's visibility, and keeps its signature.
   */
  lemma AlignedAt(s: State, declaration: Pos, ps: seq<Pos>, q: Pos)
    requires ValidPos(s, declaration) && (forall i :: 0 <= i < |ps| ==> ValidPos(s, ps[i])) && declaration !in ps
    ensures var a := Aligned(s, declaration, ps);
            var before := MethodAt(s, declaration);
            var after := MethodAt(a, declaration);
            && ValidPos(a, declaration)
            && after == before.(modifiers := after.modifiers)
            && (forall x :: !IsVisibilityModifier(x) ==> (x in after.modifiers <==> x in before.modifiers))
            && (AtLeastProtected(before.modifiers) ==> AtLeastProtected(after.modifiers))
            && (q in ps ==>
                  && ValidPos(a, q) && HasOverride(MethodAt(a, q))
                  && VisibilityHandler.CurrentVisibility(MethodAt(a, q).modifiers) == VisibilityHandler.CurrentVisibility(after.modifiers)
                  && MethodPullUp.SignatureOf(MethodAt(a, q)) == MethodPullUp.SignatureOf(MethodAt(s, q)))
  {
    if ps != [] {
      var adj := VisibilityHandler.Adjusted(s, declaration, ps).0;
      VisibilityHandler.AdjustedAt(s, declaration, ps, declaration);
      assert ps[..|ps|] == ps;
      OverriddenAt(adj, ps, |ps|, declaration);
      if q in ps {
        VisibilityHandler.AdjustedAt(s, declaration, ps, q);
        OverriddenAt(adj, ps, |ps|, q);
      }
    }
  }

  /** The destination is not among its own descendants, so it never counts as a counterpart of the copy. */
  lemma DeclarationNotCounterpart(h: Hierarchy, s: State, descendants: seq<nat>, origin: nat, name: string, params: seq<Param>, parent: nat, j: nat)
    requires Acyclic(h) && descendants == Descendants(h, parent) && forall i :: 0 <= i < |descendants| ==> descendants[i] < |s|
    ensures Pos(parent, j) !in Counterparts(s, descendants, origin, name, params, |descendants|)
  {
    NotOwnAncestor(h, parent);
  }

  /** Steps 3.4 and 3.5 keep every method at its place with its signature, and the copy lands at the end of the destination. */
  lemma CopyAlignedEffect(h: Hierarchy, moved: State, clone: Method, child: nat, parent: nat, descendants: seq<nat>, d: nat, x: nat)
    requires Acyclic(h) && parent < |moved| && descendants == Descendants(h, parent) && |moved| == |h|
    ensures var a := CopyAligned(moved, clone, child, parent, descendants);
            var j := |moved[parent].methods|;
            && MethodPullUp.Grows(moved, a)
            && j < |a[parent].methods|
            && var placed := a[parent].methods[j];
            && placed == clone.(modifiers := placed.modifiers)
            && (forall y :: !IsVisibilityModifier(y) ==> (y in placed.modifiers <==> y in clone.modifiers))
            && (AtLeastProtected(clone.modifiers) ==> AtLeastProtected(placed.modifiers))
            && (d in descendants && d != child && ClassFinder.MatchingMethod(moved[d].methods, clone.name, clone.params) == Some(x) ==>
                  && x < |a[d].methods| && HasOverride(a[d].methods[x])
                  && VisibilityHandler.CurrentVisibility(a[d].methods[x].modifiers) == VisibilityHandler.CurrentVisibility(placed.modifiers)
                  && MethodPullUp.SignatureOf(a[d].methods[x]) == MethodPullUp.SignatureOf(moved[d].methods[x]))
  {
    var added := CloneAdded(moved, parent, clone);
    var j := |moved[parent].methods|;
    var decl := Pos(parent, j);
    var ps := Counterparts(added, descendants, child, clone.name, clone.params, |descendants|);
    assert MethodPullUp.Grows(moved, added);
    AlignedKeeps(added, decl, ps);
    MethodPullUp.GrowsTrans(moved, added, CopyAligned(moved, clone, child, parent, descendants));
    DeclarationNotCounterpart(h, added, descendants, child, clone.name, clone.params, parent, j);
    var q := Pos(d, x);
    if d in descendants && d != child && ClassFinder.MatchingMethod(moved[d].methods, clone.name, clone.params) == Some(x) {
      NotOwnAncestor(h, parent);
      assert added[d] == moved[d];
      assert descendants[..|descendants|] == descendants;
      CounterpartsIff(added, descendants, child, clone.name, clone.params, |descendants|, q);
    }
    AlignedAt(added, decl, ps, q);
  }

  /** The dependents' moves keep every method of the model at its place with its signature. */
  lemma DependentsMovedGrows(h: Hierarchy, s: State, clone: Method, child: nat, k: nat, parent: nat, crossModule: bool,
                             fieldOrder: set<Field> -> seq<Field>, methodOrder: set<nat> -> seq<nat>)
    requires Acyclic(h) && |s| == |h| && IsStrictAncestor(h, parent, child) && IsEnumerator(fieldOrder) && IsEnumerator(methodOrder)
    ensures child < |h| && parent < |h|
    ensures MethodPullUp.Grows(s, DependentsMoved(h, s, clone, child, k, parent, crossModule, fieldOrder, methodOrder))
  {
    var fields := FieldPullUp.DependentFieldsPullUp(h, s, clone, child, parent, crossModule, fieldOrder).0;
    DependentFieldsKeepMethods(h, s, clone, child, parent, crossModule, fieldOrder);
    assert MethodPullUp.Grows(s, fields);
    MethodPullUp.PullUpKeepsSignatures(h, fields, clone, child, parent, k, Descendants(h, parent), methodOrder);
    MethodPullUp.GrowsTrans(s, fields, DependentsMoved(h, s, clone, child, k, parent, crossModule, fieldOrder, methodOrder));
  }

  /**
   * The migration: the copy is the destination's method just after those it
   * had once the dependents moved, with the original's name, parameters,
   * annotations and thrown types, the copy's return type, the original's
   * modifiers other than visibility, and at least protected visibility. Up
   * to the removal every method keeps its place and signature; the removal
   * takes out exactly the original, which still had its signature, and
   * touches no other class.
   */
  lemma MigrationEffect(h: Hierarchy, s: State, child: nat, k: nat, parent: nat, crossModule: bool,
                        typeOrder: set<Type> -> seq<Type>, fieldOrder: set<Field> -> seq<Field>, methodOrder: set<nat> -> seq<nat>)
    requires Acyclic(h) && |s| == |h| && IsStrictAncestor(h, parent, child) && child < |h| && k < |s[child].methods|
    requires IsEnumerator(typeOrder) && IsEnumerator(fieldOrder) && IsEnumerator(methodOrder)
    ensures parent < |h| && parent != child
    ensures var clone := Copy(h, s, child, k, parent, typeOrder);
            var moved := DependentsMoved(h, s, clone, child, k, parent, crossModule, fieldOrder, methodOrder);
            var a := CopyAligned(moved, clone, child, parent, Descendants(h, parent));
            var t := Migrated(h, s, child, k, parent, crossModule, typeOrder, fieldOrder, methodOrder);
            var m := s[child].methods[k];
            var j := |moved[parent].methods|;
            && MethodPullUp.Grows(s, a)
            && t[child].methods == a[child].methods[..k] + a[child].methods[k + 1..]
            && MethodPullUp.SignatureOf(a[child].methods[k]) == MethodPullUp.SignatureOf(m)
            && (forall x :: 0 <= x < |s| && x != child ==> t[x] == a[x])
            && j < |t[parent].methods|
            && var placed := t[parent].methods[j];
            && placed == clone.(modifiers := placed.modifiers)
            && placed.name == m.name && placed.params == m.params && placed.annotations == m.annotations && placed.thrown == m.thrown
            && AtLeastProtected(placed.modifiers)
            && (forall y :: !IsVisibilityModifier(y) ==> (y in placed.modifiers <==> y in m.modifiers))
  {
    NotOwnAncestor(h, child);
    var m := s[child].methods[k];
    var clone := Copy(h, s, child, k, parent, typeOrder);
    PreparedCopy(h, s, m, child, parent, typeOrder);
    var moved := DependentsMoved(h, s, clone, child, k, parent, crossModule, fieldOrder, methodOrder);
    DependentsMovedGrows(h, s, clone, child, k, parent, crossModule, fieldOrder, methodOrder);
    CopyAlignedEffect(h, moved, clone, child, parent, Descendants(h, parent), 0, 0);
    MethodPullUp.GrowsTrans(s, moved, CopyAligned(moved, clone, child, parent, Descendants(h, parent)));
  }

  /**
   * Every descendant of the destination other than the origin whose first
   * method matching the copy (once the dependents moved) is number `x` ends
   * with that method annotated @Override, at the copy's visibility, with its
   * signature unchanged.
   */
  lemma MigrationAlignsCounterparts(h: Hierarchy, s: State, child: nat, k: nat, parent: nat, crossModule: bool,
                                    typeOrder: set<Type> -> seq<Type>, fieldOrder: set<Field> -> seq<Field>, methodOrder: set<nat> -> seq<nat>,
                                    d: nat, x: nat)
    requires Acyclic(h) && |s| == |h| && IsStrictAncestor(h, parent, child) && child < |h| && k < |s[child].methods|
    requires IsEnumerator(typeOrder) && IsEnumerator(fieldOrder) && IsEnumerator(methodOrder)
    requires d < |h| && IsClass(h, d) && IsStrictAncestor(h, parent, d) && d != child
    ensures parent < |h|
    ensures var clone := Copy(h, s, child, k, parent, typeOrder);
            var moved := DependentsMoved(h, s, clone, child, k, parent, crossModule, fieldOrder, methodOrder);
            var t := Migrated(h, s, child, k, parent, crossModule, typeOrder, fieldOrder, methodOrder);
            var j := |moved[parent].methods|;
            ClassFinder.MatchingMethod(moved[d].methods, clone.name, clone.params) == Some(x) ==>
              && x < |t[d].methods| && j < |t[parent].methods|
              && HasOverride(t[d].methods[x])
              && VisibilityHandler.CurrentVisibility(t[d].methods[x].modifiers)
                   == VisibilityHandler.CurrentVisibility(t[parent].methods[j].modifiers)
              && MethodPullUp.SignatureOf(t[d].methods[x]) == MethodPullUp.SignatureOf(moved[d].methods[x])
  {
    NotOwnAncestor(h, child);
    var clone := Copy(h, s, child, k, parent, typeOrder);
    var moved := DependentsMoved(h, s, clone, child, k, parent, crossModule, fieldOrder, methodOrder);
    var a := CopyAligned(moved, clone, child, parent, Descendants(h, parent));
    CopyAlignedEffect(h, moved, clone, child, parent, Descendants(h, parent), d, x);
    var t := Migrated(h, s, child, k, parent, crossModule, typeOrder, fieldOrder, methodOrder);
    assert t == MethodRemoved(a, child, k);
    assert t[d] == a[d] && t[parent] == a[parent];
  }

  /** The ancestor listing names the ancestors nearest first: each is the direct superclass of the one before, and the last has none. */
  lemma AncestorClassNamesChain(h: Hierarchy, className: string)
    requires Acyclic(h)
    ensures var names := AncestorClassNames(Some(h), className);
            match ClassFinder.ClassNamed(h, className)
            case None => names == []
            case Some(c) =>
              var up := Ancestors(h, c);
              && |names| == |up|
              && (forall i :: 0 <= i < |up| ==> names[i] == h[up[i]].qname)
              && (up != [] ==> Parent(h, c) == Some(up[0]) && Parent(h, up[|up| - 1]).None?)
              && (forall i :: 0 < i < |up| ==> Parent(h, up[i - 1]) == Some(up[i]))
              && (up == [] <==> Parent(h, c).None?)
  {
    match ClassFinder.ClassNamed(h, className)
    case None =>
    case Some(c) => AncestorsLinked(h, c);
  }

  lemma {:induction false} AncestorsLinked(h: Hierarchy, c: nat)
    requires Acyclic(h)
    ensures var up := Ancestors(h, c);
            && (up != [] ==> Parent(h, c) == Some(up[0]) && Parent(h, up[|up| - 1]).None?)
            && (forall i :: 0 < i < |up| ==> Parent(h, up[i - 1]) == Some(up[i]))
            && (up == [] <==> Parent(h, c).None?)
    decreases Depth(h, c)
  {
    match Parent(h, c)
    case None =>
    case Some(p) =>
      ParentDepth(h, c);
      AncestorsLinked(h, p);
      var rest := Ancestors(h, p);
      assert Ancestors(h, c) == [p] + rest;
      if rest != [] {
        assert Parent(h, p) == Some(rest[0]);
      }
  }
}
