/**
 * The return-type adjustment applied to a method being pulled up: when another
 * subclass of the destination declares the same method with a return type
 * that neither equals nor is a subclass or superclass of this one, the pulled-up
 * copy gets a common supertype as its return type, and its local variables
 * declared with the old return type get the new one.
 *
 * The method being adjusted is the detached copy made for the pull-up, not a
 * member of the model, so the operations here take it and give back its
 * adjusted version.
 */
module ReturnTypeAdjuster {
  import opened Common
  import opened JavaModel

  datatype ReturnTypeAdjustmentResult = ReturnTypeAdjustmentResult(
    wasAdjusted: bool,
    message: string,
    originalReturnType: Type,    // Absent when nothing was adjusted
    adjustedReturnType: Type)

  function NoAdjustment(message: string): ReturnTypeAdjustmentResult {
    ReturnTypeAdjustmentResult(false, message, Absent, Absent)
  }

  function Adjusted(message: string, original: Type, adjusted: Type): ReturnTypeAdjustmentResult {
    ReturnTypeAdjustmentResult(true, message, original, adjusted)
  }

  // ---------------------------------------------------------------- siblings

  /**
   * A class other than `exclude` whose superclass chain, followed through
   * class declarations of the model and of the classpath, meets `parent`.
   */
  predicate IsSibling(h: Hierarchy, parent: nat, exclude: nat, c: nat)
    requires Acyclic(h)
  {
    IsClass(h, c) && c != exclude && ClassType(parent) in SuperclassChain(h, ClassType(c))
  }

  /** The siblings among the first `n` declarations, in model order. */
  function Siblings(h: Hierarchy, parent: nat, exclude: nat, n: nat): (r: seq<nat>)
    requires Acyclic(h) && n <= |h|
    ensures forall i :: 0 <= i < |r| ==> r[i] < n
  {
    if n == 0 then []
    else Siblings(h, parent, exclude, n - 1) + (if IsSibling(h, parent, exclude, n - 1) then [n - 1] else [])
  }

  /** The siblings among the first `n` declarations are exactly those, each listed once. */
  lemma {:induction false} SiblingsMembers(h: Hierarchy, parent: nat, exclude: nat, n: nat)
    requires Acyclic(h) && n <= |h|
    ensures forall c: nat :: c in Siblings(h, parent, exclude, n) <==> c < n && IsSibling(h, parent, exclude, c)
  {
    if n > 0 {
      SiblingsMembers(h, parent, exclude, n - 1);
    }
  }

  /** findSiblingClasses: every class of the model except the origin that descends from the destination. */
  method FindSiblingClasses(h: Hierarchy, parent: nat, exclude: nat) returns (siblings: seq<nat>)
    requires Acyclic(h) && IsClass(h, parent)
    ensures siblings == Siblings(h, parent, exclude, |h|)
  {
    siblings := [];
    for i := 0 to |h|
      invariant siblings == Siblings(h, parent, exclude, i)
    {
      if !h[i].isInterface && i != exclude {
        var sub := IsSubclassOf(h, ClassType(i), ClassType(parent));
        if sub {
          siblings := siblings + [i];
        }
      }
    }
  }

  // ------------------------------------------------------ conflicting methods

  /**
   * isSubtypeOf: both types are declared as classes, of the model or of the
   * classpath, and the second is met on the first one's superclass chain.
   */
  predicate ClassSubtype(h: Hierarchy, sub: Type, sup: Type)
    requires Acyclic(h)
  {
    HasClassDeclaration(h, sub) && HasClassDeclaration(h, sup) && sup in SuperclassChain(h, sub)
  }

  method IsSubtypeOf(h: Hierarchy, sub: Type, sup: Type) returns (r: bool)
    requires Acyclic(h)
    ensures r == ClassSubtype(h, sub, sup)
  {
    r := false;
    if HasClassDeclaration(h, sub) && HasClassDeclaration(h, sup) {
      r := IsSubclassOf(h, sub, sup);
    }
  }

  /**
   * isSubclassOf: walks up the superclass references from `child` while
   * each one is declared as a class, answering true on meeting `parent`.
   */
  method IsSubclassOf(h: Hierarchy, child: Type, parent: Type) returns (r: bool)
    requires Acyclic(h) && HasClassDeclaration(h, child)
    ensures r <==> parent in SuperclassChain(h, child)
  {
    var superClass := DeclaredSuperclass(h, child);
    ghost var at := child;
    while superClass != Absent
      invariant HasClassDeclaration(h, at) && superClass == DeclaredSuperclass(h, at)
      invariant (parent in SuperclassChain(h, child)) == (parent in SuperclassChain(h, at))
      decreases Rank(h, at)
    {
      DeclaredSuperclassRank(h, at);
      if superClass == parent {
        return true;
      }
      if HasClassDeclaration(h, superClass) {
        at := superClass;
        superClass := DeclaredSuperclass(h, superClass);
      } else {
        return false;
      }
    }
    return false;
  }

  /** Two return types conflict when both exist, differ, and neither is a subclass of the other. */
  predicate ReturnTypesConflict(h: Hierarchy, t1: Type, t2: Type)
    requires Acyclic(h)
  {
    t1 != Absent && t2 != Absent && t1 != t2 && !ClassSubtype(h, t1, t2) && !ClassSubtype(h, t2, t1)
  }

  method HasConflictingReturnType(h: Hierarchy, m1: Method, m2: Method) returns (r: bool)
    requires Acyclic(h)
    ensures r == ReturnTypesConflict(h, m1.returnType, m2.returnType)
  {
    var type1 := m1.returnType;
    var type2 := m2.returnType;
    if type1 == Absent || type2 == Absent {
      return false;
    }
    if type1 == type2 {
      return false;
    }
    var down := IsSubtypeOf(h, type1, type2);
    var up := IsSubtypeOf(h, type2, type1);
    return !(down || up);
  }

  /** hasSameParameters: equal arity and equal types position by position. */
  method HasSameParameters(m1: Method, m2: Method) returns (r: bool)
    ensures r == SameParameters(m1.params, m2.params)
  {
    if |m1.params| != |m2.params| {
      return false;
    }
    for i := 0 to |m1.params|
      invariant forall j :: 0 <= j < i ==> m1.params[j].ptype == m2.params[j].ptype
    {
      if m1.params[i].ptype != m2.params[i].ptype {
        return false;
      }
    }
    return true;
  }

  /** `x` is a method the pull-up of `target` would clash with. */
  predicate ConflictsWith(h: Hierarchy, target: Method, x: Method)
    requires Acyclic(h)
  {
    x.name == target.name && SameParameters(x.params, target.params)
    && ReturnTypesConflict(h, x.returnType, target.returnType)
  }

  /** The methods among the first `k` of `methods` that clash with `target`, in order. */
  function ConflictsAmong(h: Hierarchy, target: Method, methods: seq<Method>, k: nat): (r: seq<Method>)
    requires Acyclic(h) && k <= |methods|
    ensures forall x :: x in r <==> x in methods[..k] && ConflictsWith(h, target, x)
  {
    if k == 0 then []
    else
      assert methods[..k] == methods[..k - 1] + [methods[k - 1]];
      ConflictsAmong(h, target, methods, k - 1) + (if ConflictsWith(h, target, methods[k - 1]) then [methods[k - 1]] else [])
  }

  /** The clashing methods of the first `n` classes of `classes`, class by class in declaration order. */
  function ConflictingMethods(h: Hierarchy, s: State, target: Method, classes: seq<nat>, n: nat): (r: seq<Method>)
    requires Acyclic(h) && n <= |classes| && forall i :: 0 <= i < |classes| ==> classes[i] < |s|
    ensures forall x :: x in r <==> exists i :: 0 <= i < n && x in s[classes[i]].methods && ConflictsWith(h, target, x)
  {
    if n == 0 then []
    else
      var methods := s[classes[n - 1]].methods;
      var r := ConflictingMethods(h, s, target, classes, n - 1) + ConflictsAmong(h, target, methods, |methods|);
      assert methods[..|methods|] == methods;
      r
  }

  /** findConflictingMethods: the siblings' methods with the same name and parameters and a clashing return type. */
  method FindConflictingMethods(h: Hierarchy, s: State, target: Method, classes: seq<nat>) returns (conflicting: seq<Method>)
    requires Acyclic(h) && forall i :: 0 <= i < |classes| ==> classes[i] < |s|
    ensures conflicting == ConflictingMethods(h, s, target, classes, |classes|)
  {
    conflicting := [];
    for i := 0 to |classes|
      invariant conflicting == ConflictingMethods(h, s, target, classes, i)
    {
      var methods := s[classes[i]].methods;
      ghost var before := conflicting;
      for k := 0 to |methods|
        invariant conflicting == before + ConflictsAmong(h, target, methods, k)
      {
        var m := methods[k];
        var same := HasSameParameters(m, target);
        if m.name == target.name && same {
          var clash := HasConflictingReturnType(h, m, target);
          if clash {
            conflicting := conflicting + [m];
          }
        }
      }
    }
  }

  // ------------------------------------------------------ compatible type

  function Elements(ts: seq<Type>): (r: set<Type>)
    ensures forall t :: t in r <==> t in ts
  {
    set t | t in ts
  }

  /**
   * getAllSuperTypes: for a type declared as a class, of the model or of the
   * classpath, the superclass references met walking up its chain, plus its
   * directly implemented interfaces; nothing for any other type.
   */
  function AllSuperTypes(h: Hierarchy, t: Type): set<Type>
    requires Acyclic(h)
  {
    if HasClassDeclaration(h, t)
    then Elements(SuperclassChain(h, t)) + Elements(DeclaredInterfaces(h, t))
    else {}
  }

  method GetAllSuperTypes(h: Hierarchy, t: Type) returns (superTypes: set<Type>)
    requires Acyclic(h)
    ensures superTypes == AllSuperTypes(h, t)
  {
    superTypes := {};
    if HasClassDeclaration(h, t) {
      superTypes := AddSuperclasses(h, t);
      superTypes := AddAll(superTypes, DeclaredInterfaces(h, t));
    }
  }

  /** getAllSuperTypes's first loop: the superclass references met walking up through class declarations. */
  method AddSuperclasses(h: Hierarchy, t: Type) returns (superTypes: set<Type>)
    requires Acyclic(h) && HasClassDeclaration(h, t)
    ensures superTypes == Elements(SuperclassChain(h, t))
  {
    superTypes := {};
    var superClass := DeclaredSuperclass(h, t);
    ghost var at := t;
    while superClass != Absent
      invariant HasClassDeclaration(h, at) && superClass == DeclaredSuperclass(h, at)
      invariant superTypes + Elements(SuperclassChain(h, at)) == Elements(SuperclassChain(h, t))
      decreases Rank(h, at)
    {
      ChainElementsStep(h, at);
      superTypes := superTypes + {superClass};
      if HasClassDeclaration(h, superClass) {
        at := superClass;
        superClass := DeclaredSuperclass(h, superClass);
      } else {
        break;
      }
    }
  }

  /** getAllSuperTypes's second loop: each listed interface is added to the set. */
  method AddAll(acc: set<Type>, ts: seq<Type>) returns (r: set<Type>)
    ensures r == acc + Elements(ts)
  {
    r := acc;
    for i := 0 to |ts|
      invariant r == acc + Elements(ts[..i])
    {
      assert ts[..i + 1] == ts[..i] + [ts[i]];
      r := r + {ts[i]};
    }
    assert ts[..|ts|] == ts;
  }

  /** The chain from a class declaration with a superclass is that superclass followed by the superclass's own chain. */
  lemma ChainElementsStep(h: Hierarchy, t: Type)
    requires Acyclic(h) && HasClassDeclaration(h, t) && DeclaredSuperclass(h, t) != Absent
    ensures Rank(h, DeclaredSuperclass(h, t)) < Rank(h, t)
    ensures Elements(SuperclassChain(h, t)) == {DeclaredSuperclass(h, t)} + Elements(SuperclassChain(h, DeclaredSuperclass(h, t)))
  {
    DeclaredSuperclassRank(h, t);
  }

  /**
   * The supertypes `first` shares with the first `n` types of `ts`, leaving out
   * `first` itself: the intersections of findCommonSuperType's loop.
   */
  function Intersected(h: Hierarchy, first: Type, ts: seq<Type>, n: nat): (r: set<Type>)
    requires Acyclic(h) && n <= |ts|
    ensures forall x :: x in r <==>
              x in AllSuperTypes(h, first) && forall i :: 0 <= i < n && ts[i] != first ==> x in AllSuperTypes(h, ts[i])
  {
    if n == 0 then AllSuperTypes(h, first)
    else if ts[n - 1] != first then Intersected(h, first, ts, n - 1) * AllSuperTypes(h, ts[n - 1])
    else Intersected(h, first, ts, n - 1)
  }

  /** The stream's `filter(not Object).findFirst().orElse(Object)`. */
  function FirstNotObject(ts: seq<Type>): (r: Type)
    ensures r != ObjectType ==> r in ts
    ensures r == ObjectType ==> forall i :: 0 <= i < |ts| ==> ts[i] == ObjectType
  {
    if ts == [] then ObjectType
    else if ts[0] != ObjectType then ts[0]
    else FirstNotObject(ts[1..])
  }

  /**
   * findCommonSuperType: None (Absent) for no types, the only one for one, and
   * otherwise the first non-Object shared supertype in iteration order, or
   * Object. `order` is the iteration order of a HashSet.
   */
  function CommonSuperType(h: Hierarchy, types: set<Type>, order: set<Type> -> seq<Type>): Type
    requires Acyclic(h) && IsEnumerator(order)
  {
    assert Enumerates(order(types), types);
    if |types| == 0 then Absent
    else if |types| == 1 then order(types)[0]
    else
      var ts := order(types);
      FirstNotObject(order(Intersected(h, ts[0], ts, |ts|)))
  }

  method FindCommonSuperType(h: Hierarchy, types: set<Type>, order: set<Type> -> seq<Type>) returns (r: Type)
    requires Acyclic(h) && IsEnumerator(order)
    ensures r == CommonSuperType(h, types, order)
  {
    assert Enumerates(order(types), types);
    if |types| == 0 {
      return Absent;
    }
    var ts := order(types);
    if |types| == 1 {
      return ts[0];
    }
    var commonAncestors := IntersectSuperTypes(h, ts[0], ts);
    r := FirstNotObject(order(commonAncestors));
  }

  /** The loop of findCommonSuperType: the first type's supertypes, intersected with those of each other type. */
  method IntersectSuperTypes(h: Hierarchy, firstType: Type, ts: seq<Type>) returns (commonAncestors: set<Type>)
    requires Acyclic(h)
    ensures commonAncestors == Intersected(h, firstType, ts, |ts|)
  {
    commonAncestors := GetAllSuperTypes(h, firstType);
    for i := 0 to |ts|
      invariant commonAncestors == Intersected(h, firstType, ts, i)
    {
      if ts[i] != firstType {
        var superTypes := GetAllSuperTypes(h, ts[i]);
        commonAncestors := commonAncestors * superTypes;
      }
    }
  }

  function ReturnTypes(ms: seq<Method>): (r: seq<Type>)
    ensures |r| == |ms| && forall i :: 0 <= i < |ms| ==> r[i] == ms[i].returnType
  {
    if ms == [] then [] else [ms[0].returnType] + ReturnTypes(ms[1..])
  }

  /** The return types to reconcile: the method's own and the clashing methods'. */
  function ReconciledTypes(target: Method, conflicting: seq<Method>): set<Type> {
    {target.returnType} + Elements(ReturnTypes(conflicting))
  }

  /** findCompatibleReturnType: the common supertype, or Object when there is none. */
  function CompatibleReturnType(h: Hierarchy, target: Method, conflicting: seq<Method>, order: set<Type> -> seq<Type>): Type
    requires Acyclic(h) && IsEnumerator(order)
  {
    var common := CommonSuperType(h, ReconciledTypes(target, conflicting), order);
    if common != Absent then common else ObjectType
  }

  method FindCompatibleReturnType(h: Hierarchy, target: Method, conflicting: seq<Method>, order: set<Type> -> seq<Type>)
    returns (r: Type)
    requires Acyclic(h) && IsEnumerator(order)
    ensures r == CompatibleReturnType(h, target, conflicting, order)
    ensures r != Absent
  {
    var returnTypes := CollectReturnTypes(target, conflicting);
    var common := FindCommonSuperType(h, returnTypes, order);
    if common != Absent {
      return common;
    }
    return ObjectType;
  }

  /** The first loop of findCompatibleReturnType: the method's return type and each clashing method's. */
  method CollectReturnTypes(target: Method, conflicting: seq<Method>) returns (returnTypes: set<Type>)
    ensures returnTypes == ReconciledTypes(target, conflicting)
  {
    returnTypes := {target.returnType};
    for i := 0 to |conflicting|
      invariant returnTypes == {target.returnType} + Elements(ReturnTypes(conflicting[..i]))
    {
      ReturnTypesStep(conflicting, i);
      returnTypes := returnTypes + {conflicting[i].returnType};
    }
    assert conflicting[..|conflicting|] == conflicting;
  }

  lemma ReturnTypesStep(ms: seq<Method>, i: nat)
    requires i < |ms|
    ensures Elements(ReturnTypes(ms[..i + 1])) == Elements(ReturnTypes(ms[..i])) + {ms[i].returnType}
  {
    assert ReturnTypes(ms[..i + 1]) == ReturnTypes(ms[..i]) + [ms[i].returnType];
  }

  // ------------------------------------------------------ the adjustment

  /** A local variable declared with the old return type is redeclared with the new one. */
  function RetypeLocal(e: Elem, original: Type, newType: Type): Elem {
    if e.LocalVar? && e.varType == original then e.(varType := newType) else e
  }

  function RetypeLocals(elems: seq<Elem>, original: Type, newType: Type): (r: seq<Elem>)
    ensures |r| == |elems| && forall i :: 0 <= i < |elems| ==> r[i] == RetypeLocal(elems[i], original, newType)
  {
    if elems == [] then [] else [RetypeLocal(elems[0], original, newType)] + RetypeLocals(elems[1..], original, newType)
  }

  /** adjustReturnStatements: nothing when the types are equal; otherwise the matching local variables are retyped. */
  function AdjustReturnStatements(m: Method, original: Type, newType: Type): Method {
    if original == newType || m.body.None? then m
    else m.(body := Some(m.body.value.(elems := RetypeLocals(m.body.value.elems, original, newType))))
  }

  function AdjustmentMessage(h: Hierarchy, original: Type, adjusted: Type): string {
    "返回类型从 " + SimpleTypeName(h, original) + " 调整为 " + SimpleTypeName(h, adjusted)
  }

  /**
   * adjustReturnTypeForPullUp on the copy `m` of a method of `child` pulled up
   * to `parent`: the result and the copy as it is afterwards.
   */
  function Adjustment(h: Hierarchy, s: State, m: Method, child: nat, parent: nat, order: set<Type> -> seq<Type>)
    : (ReturnTypeAdjustmentResult, Method)
    requires Acyclic(h) && |s| == |h| && IsEnumerator(order)
  {
    if m.returnType == Absent || IsPrimitive(m.returnType) then (NoAdjustment("方法返回类型为基础类型，无需调整"), m)
    else
      var siblings := Siblings(h, parent, child, |h|);
      if siblings == [] then (NoAdjustment("未找到其他子类，无需调整返回类型"), m)
      else
        var conflicting := ConflictingMethods(h, s, m, siblings, |siblings|);
        if conflicting == [] then (NoAdjustment("未发现返回类型冲突"), m)
        else
          var compatible := CompatibleReturnType(h, m, conflicting, order);
          if compatible == Absent then (NoAdjustment("无法找到兼容的返回类型"), m)
          else
            var retyped := m.(returnType := compatible);
            (Adjusted(AdjustmentMessage(h, m.returnType, compatible), m.returnType, compatible),
             AdjustReturnStatements(retyped, m.returnType, compatible))
  }

  method AdjustReturnTypeForPullUp(h: Hierarchy, s: State, m: Method, child: nat, parent: nat, order: set<Type> -> seq<Type>)
    returns (result: ReturnTypeAdjustmentResult, adjusted: Method)
    requires Acyclic(h) && |s| == |h| && IsClass(h, parent) && IsEnumerator(order)
    ensures (result, adjusted) == Adjustment(h, s, m, child, parent, order)
    ensures !result.wasAdjusted ==> adjusted == m
    ensures (m.returnType == Absent || IsPrimitive(m.returnType)) ==> !result.wasAdjusted
  {
    var currentReturnType := m.returnType;
    if currentReturnType == Absent || IsPrimitive(currentReturnType) {
      return NoAdjustment("方法返回类型为基础类型，无需调整"), m;
    }
    var siblingClasses := FindSiblingClasses(h, parent, child);
    if siblingClasses == [] {
      return NoAdjustment("未找到其他子类，无需调整返回类型"), m;
    }
    var conflictingMethods := FindConflictingMethods(h, s, m, siblingClasses);
    if conflictingMethods == [] {
      return NoAdjustment("未发现返回类型冲突"), m;
    }
    var compatibleReturnType := FindCompatibleReturnType(h, m, conflictingMethods, order);
    if compatibleReturnType == Absent {
      return NoAdjustment("无法找到兼容的返回类型"), m;
    }
    var originalType := currentReturnType;
    adjusted := m.(returnType := compatibleReturnType);
    adjusted := AdjustReturnStatements(adjusted, originalType, compatibleReturnType);
    result := Adjusted(AdjustmentMessage(h, originalType, compatibleReturnType), originalType, compatibleReturnType);
  }

  // ------------------------------------------------------ properties

  lemma TwoDistinct(types: set<Type>, a: Type, b: Type)
    requires a in types && b in types && a != b
    ensures |types| >= 2
  {
    var rest := types - {a};
    assert b in rest;
    assert types == rest + {a} && a !in rest;
  }

  /** Every clashing sibling method is among ConflictingMethods over the siblings, and conversely. */
  lemma ConflictingSiblingMethods(h: Hierarchy, s: State, m: Method, child: nat, parent: nat)
    requires Acyclic(h) && |s| == |h|
    ensures var siblings := Siblings(h, parent, child, |h|);
            forall x :: x in ConflictingMethods(h, s, m, siblings, |siblings|) <==>
              exists c: nat :: IsSibling(h, parent, child, c) && x in s[c].methods && ConflictsWith(h, m, x)
  {
    var siblings := Siblings(h, parent, child, |h|);
    SiblingsMembers(h, parent, child, |h|);
    forall x ensures x in ConflictingMethods(h, s, m, siblings, |siblings|) <==>
                     exists c: nat :: IsSibling(h, parent, child, c) && x in s[c].methods && ConflictsWith(h, m, x)
    {
      if exists c: nat :: IsSibling(h, parent, child, c) && x in s[c].methods && ConflictsWith(h, m, x) {
        var c: nat :| IsSibling(h, parent, child, c) && x in s[c].methods && ConflictsWith(h, m, x);
        assert c in siblings;
        var i :| 0 <= i < |siblings| && siblings[i] == c;
      }
    }
  }

  /** The branches of Adjustment: an adjustment happens exactly for a reference return type with clashing sibling methods. */
  lemma AdjustmentBranches(h: Hierarchy, s: State, m: Method, child: nat, parent: nat, order: set<Type> -> seq<Type>)
    requires Acyclic(h) && |s| == |h| && IsEnumerator(order)
    ensures var (r, a) := Adjustment(h, s, m, child, parent, order);
            var siblings := Siblings(h, parent, child, |h|);
            var conflicting := ConflictingMethods(h, s, m, siblings, |siblings|);
            var compatible := CompatibleReturnType(h, m, conflicting, order);
            && (r.wasAdjusted <==> m.returnType != Absent && !IsPrimitive(m.returnType) && conflicting != [])
            && (r.wasAdjusted ==>
                  r == Adjusted(AdjustmentMessage(h, m.returnType, compatible), m.returnType, compatible)
                  && a == AdjustReturnStatements(m.(returnType := compatible), m.returnType, compatible))
  {
  }

  /**
   * The copy is adjusted exactly when its return type is a reference type and
   * some other subclass of the destination declares a method with the same
   * name and parameters whose return type clashes with it.
   */
  lemma AdjustedIffConflict(h: Hierarchy, s: State, m: Method, child: nat, parent: nat, order: set<Type> -> seq<Type>)
    requires Acyclic(h) && |s| == |h| && IsEnumerator(order)
    ensures Adjustment(h, s, m, child, parent, order).0.wasAdjusted <==>
              m.returnType != Absent && !IsPrimitive(m.returnType)
              && exists c: nat, x :: IsSibling(h, parent, child, c) && x in s[c].methods && ConflictsWith(h, m, x)
  {
    AdjustmentBranches(h, s, m, child, parent, order);
    ConflictingSiblingMethods(h, s, m, child, parent);
    var siblings := Siblings(h, parent, child, |h|);
    var conflicting := ConflictingMethods(h, s, m, siblings, |siblings|);
    if exists c: nat, x :: IsSibling(h, parent, child, c) && x in s[c].methods && ConflictsWith(h, m, x) {
      var c: nat, x :| IsSibling(h, parent, child, c) && x in s[c].methods && ConflictsWith(h, m, x);
      assert x in conflicting;
    }
    if conflicting != [] {
      assert conflicting[0] in conflicting;
    }
  }

  /**
   * An adjustment changes the copy's return type to the reported one and
   * retypes the local variables declared with the old return type; name,
   * parameters, modifiers, annotations, thrown types, the other body
   * elements, and the body's presence stay as they were.
   */
  lemma AdjustedCopy(h: Hierarchy, s: State, m: Method, child: nat, parent: nat, order: set<Type> -> seq<Type>)
    requires Acyclic(h) && |s| == |h| && IsEnumerator(order)
    ensures var (r, a) := Adjustment(h, s, m, child, parent, order);
            r.wasAdjusted ==>
              && r.originalReturnType == m.returnType
              && a.returnType == r.adjustedReturnType != Absent
              && a.name == m.name && a.params == m.params && a.modifiers == m.modifiers
              && a.annotations == m.annotations && a.thrown == m.thrown
              && (a.body.Some? <==> m.body.Some?)
              && (m.body.Some? ==>
                    && |a.body.value.elems| == |m.body.value.elems|
                    && forall i :: 0 <= i < |m.body.value.elems| ==>
                         var e := m.body.value.elems[i];
                         a.body.value.elems[i] == if e.LocalVar? && e.varType == m.returnType then LocalVar(e.name, a.returnType) else e)
  {
    AdjustmentBranches(h, s, m, child, parent, order);
  }

  /**
   * With at least two types, the common supertype found is shared by all of
   * them, unless it is Object, which is found only when no other type is.
   */
  lemma {:induction false} CommonSuperTypeShared(h: Hierarchy, types: set<Type>, order: set<Type> -> seq<Type>)
    requires Acyclic(h) && IsEnumerator(order) && |types| >= 2
    ensures var t := CommonSuperType(h, types, order);
            && (t != ObjectType ==> forall u :: u in types ==> t in AllSuperTypes(h, u))
            && (t == ObjectType ==> forall v :: v != ObjectType && v in AllSuperTypes(h, order(types)[0]) ==>
                                      exists u :: u in types && v !in AllSuperTypes(h, u))
  {
    var ts := order(types);
    assert Enumerates(ts, types);
    EnumeratesMembers(ts, types);
    var common := Intersected(h, ts[0], ts, |ts|);
    assert Enumerates(order(common), common);
    EnumeratesMembers(order(common), common);
    var t := FirstNotObject(order(common));
    assert CommonSuperType(h, types, order) == t;
    if t != ObjectType {
      forall u | u in types ensures t in AllSuperTypes(h, u) {
        var i :| 0 <= i < |ts| && ts[i] == u;
      }
    } else {
      forall v | v != ObjectType && v in AllSuperTypes(h, ts[0])
        ensures exists u :: u in types && v !in AllSuperTypes(h, u)
      {
        if v !in common {
          var i :| 0 <= i < |ts| && ts[i] != ts[0] && v !in AllSuperTypes(h, ts[i]);
          assert ts[i] in types;
        } else {
          assert false;
        }
      }
    }
  }

  /** No declaration lists a missing type among the interfaces it implements. */
  predicate InterfacesPresent(h: Hierarchy) {
    forall i :: 0 <= i < |h| ==> Absent !in h[i].interfaces
  }

  /** The shadow declaration of a library type lists no missing type among its interfaces. */
  predicate ShadowInterfacesPresent(t: Type) {
    t.LibraryType? && t.shadow.Some? ==> Absent !in t.shadow.value.interfaces
  }

  /** getAllSuperTypes never yields a missing type, when the declaration it starts from lists none among its interfaces. */
  lemma SuperTypesPresent(h: Hierarchy, t: Type)
    requires Acyclic(h) && InterfacesPresent(h) && ShadowInterfacesPresent(t)
    ensures Absent !in AllSuperTypes(h, t)
  {
    if HasClassDeclaration(h, t) && Absent in SuperclassChain(h, t) {
      SuperclassChainReached(h, t, Absent);
    }
  }

  /** findCompatibleReturnType for a method and methods whose return types differ from its own. */
  lemma CompatibleIsShared(h: Hierarchy, m: Method, conflicting: seq<Method>, order: set<Type> -> seq<Type>)
    requires Acyclic(h) && InterfacesPresent(h) && ShadowInterfacesPresent(m.returnType) && IsEnumerator(order)
    requires conflicting != [] && forall x :: x in conflicting ==> x.returnType != m.returnType
    ensures var t := CompatibleReturnType(h, m, conflicting, order);
            var types := ReconciledTypes(m, conflicting);
            && (t != ObjectType ==>
                  t in AllSuperTypes(h, m.returnType) && forall x :: x in conflicting ==> t in AllSuperTypes(h, x.returnType))
            && (t == ObjectType ==>
                  forall v :: v != ObjectType && v in AllSuperTypes(h, order(types)[0]) ==>
                    exists u :: u in types && v !in AllSuperTypes(h, u))
  {
    var types := ReconciledTypes(m, conflicting);
    ReconciledMembers(m, conflicting);
    assert conflicting[0] in conflicting;
    TwoDistinct(types, m.returnType, conflicting[0].returnType);
    CommonSuperTypeShared(h, types, order);
    SuperTypesPresent(h, m.returnType);
  }

  lemma ReconciledMembers(m: Method, conflicting: seq<Method>)
    ensures m.returnType in ReconciledTypes(m, conflicting)
    ensures forall x :: x in conflicting ==> x.returnType in ReconciledTypes(m, conflicting)
  {
    forall x | x in conflicting ensures x.returnType in ReconciledTypes(m, conflicting) {
      var i :| 0 <= i < |conflicting| && conflicting[i] == x;
      assert ReturnTypes(conflicting)[i] == x.returnType;
    }
  }

  /**
   * The new return type is a supertype shared by the copy's return type and by
   * every clashing return type; Object is chosen only when no other supertype
   * of the first type in iteration order is shared by all of them.
   */
  lemma AdjustedTypeIsShared(h: Hierarchy, s: State, m: Method, child: nat, parent: nat, order: set<Type> -> seq<Type>)
    requires Acyclic(h) && InterfacesPresent(h) && ShadowInterfacesPresent(m.returnType) && |s| == |h| && IsEnumerator(order)
    ensures var r := Adjustment(h, s, m, child, parent, order).0;
            var siblings := Siblings(h, parent, child, |h|);
            var conflicting := ConflictingMethods(h, s, m, siblings, |siblings|);
            var types := ReconciledTypes(m, conflicting);
            r.wasAdjusted ==>
              && (r.adjustedReturnType != ObjectType ==>
                    r.adjustedReturnType in AllSuperTypes(h, m.returnType)
                    && forall x :: x in conflicting ==> r.adjustedReturnType in AllSuperTypes(h, x.returnType))
              && (r.adjustedReturnType == ObjectType ==>
                    forall v :: v != ObjectType && v in AllSuperTypes(h, order(types)[0]) ==>
                      exists u :: u in types && v !in AllSuperTypes(h, u))
  {
    AdjustmentBranches(h, s, m, child, parent, order);
    var siblings := Siblings(h, parent, child, |h|);
    var conflicting := ConflictingMethods(h, s, m, siblings, |siblings|);
    if conflicting != [] {
      CompatibleIsShared(h, m, conflicting, order);
    }
  }

  // ------------------------------------------------------ the shapes example

  /** BaseShape, with EllipseShape and RectShape extending it. */
  function ShapesHierarchy(): Hierarchy {
    [Header("test.BaseShape", "BaseShape", false, Absent, [], None),
     Header("test.EllipseShape", "EllipseShape", false, ClassType(0), [], None),
     Header("test.RectShape", "RectShape", false, ClassType(0), [], None)]
  }

  /** A `clone()` returning `returned`, with a local `that` of that type. */
  function CloneReturning(returned: Type): Method {
    Method("clone", [], returned, {Public}, ["Override"], [],
           Some(Body("{ that = super.clone(); return that; }", [LocalVar("that", returned)])))
  }

  function ShapesState(): State {
    [Members(false, [], []),
     Members(false, [CloneReturning(ClassType(1))], []),
     Members(false, [CloneReturning(ClassType(2))], [])]
  }

  lemma SingletonOrder(order: set<Type> -> seq<Type>, t: Type)
    requires IsEnumerator(order)
    ensures order({t}) == [t]
  {
    var ts := order({t});
    assert Enumerates(ts, {t});
    assert multiset(ts) == multiset{t};
    assert |ts| == 1;
    assert ts[0] in multiset(ts);
  }

  lemma ShapesAcyclic()
    ensures Acyclic(ShapesHierarchy())
    ensures Ancestors(ShapesHierarchy(), 1) == [0] && Ancestors(ShapesHierarchy(), 2) == [0]
    ensures SuperclassRefs(ShapesHierarchy(), 1) == [ClassType(0)] && SuperclassRefs(ShapesHierarchy(), 2) == [ClassType(0)]
  {
    ShapesChains(ShapesHierarchy());
  }

  lemma ShapesChains(h: Hierarchy)
    requires h == ShapesHierarchy()
    ensures Acyclic(h)
    ensures Ancestors(h, 1) == [0] && Ancestors(h, 2) == [0]
    ensures SuperclassRefs(h, 1) == [ClassType(0)] && SuperclassRefs(h, 2) == [ClassType(0)]
  {
    ShapesParents(h);
    SuperclassesFirstAcyclic(h);
    assert Ancestors(h, 0) == [];
    assert SuperclassRefs(h, 0) == [];
  }

  lemma ShapesParents(h: Hierarchy)
    requires h == ShapesHierarchy()
    ensures |h| == 3 && h[0].superclass == Absent
    ensures Parent(h, 0) == None && Parent(h, 1) == Some(0) && Parent(h, 2) == Some(0)
  {
  }

  /** RectShape is the one sibling, and its clone() the one clash. */
  lemma ShapesConflict()
    requires Acyclic(ShapesHierarchy())
    requires Ancestors(ShapesHierarchy(), 1) == [0] && Ancestors(ShapesHierarchy(), 2) == [0]
    ensures Siblings(ShapesHierarchy(), 0, 1, 3) == [2]
    ensures ConflictingMethods(ShapesHierarchy(), ShapesState(), CloneReturning(ClassType(1)), [2], 1) == [CloneReturning(ClassType(2))]
  {
    var h := ShapesHierarchy();
    var m := CloneReturning(ClassType(1));
    assert Siblings(h, 0, 1, 1) == [];
    assert Siblings(h, 0, 1, 2) == [];
    assert ConflictsWith(h, m, CloneReturning(ClassType(2)));
    assert ConflictsAmong(h, m, ShapesState()[2].methods, 1) == [CloneReturning(ClassType(2))];
  }

  lemma ShapesCompatible(order: set<Type> -> seq<Type>)
    requires IsEnumerator(order) && Acyclic(ShapesHierarchy())
    requires SuperclassRefs(ShapesHierarchy(), 1) == [ClassType(0)] && SuperclassRefs(ShapesHierarchy(), 2) == [ClassType(0)]
    ensures CompatibleReturnType(ShapesHierarchy(), CloneReturning(ClassType(1)), [CloneReturning(ClassType(2))], order) == ClassType(0)
  {
    var h := ShapesHierarchy();
    var types := ReconciledTypes(CloneReturning(ClassType(1)), [CloneReturning(ClassType(2))]);
    assert types == {ClassType(1), ClassType(2)};
    assert AllSuperTypes(h, ClassType(1)) == {ClassType(0)} && AllSuperTypes(h, ClassType(2)) == {ClassType(0)};
    assert |types| == 2;
    SharedSupertypeChosen(h, types, order, ClassType(0));
  }

  /** Two or more types whose one supertype is the same class `t`: `t` is their common supertype. */
  lemma SharedSupertypeChosen(h: Hierarchy, types: set<Type>, order: set<Type> -> seq<Type>, t: Type)
    requires Acyclic(h) && IsEnumerator(order) && |types| >= 2 && t != ObjectType
    requires forall x :: x in types ==> AllSuperTypes(h, x) == {t}
    ensures CommonSuperType(h, types, order) == t
  {
    var ts := order(types);
    assert Enumerates(ts, types);
    EnumeratesMembers(ts, types);
    assert forall i :: 0 <= i < |ts| ==> ts[i] in types;
    SharedSingleSuperType(h, ts, t);
    SingletonOrder(order, t);
  }

  /** When every type has the one supertype `t`, that is all they share. */
  lemma SharedSingleSuperType(h: Hierarchy, ts: seq<Type>, t: Type)
    requires Acyclic(h) && ts != []
    requires forall i :: 0 <= i < |ts| ==> AllSuperTypes(h, ts[i]) == {t}
    ensures Intersected(h, ts[0], ts, |ts|) == {t}
  {
    var common := Intersected(h, ts[0], ts, |ts|);
    forall x ensures x in common <==> x == t {
      if x == t {
        forall i | 0 <= i < |ts| ensures x in AllSuperTypes(h, ts[i]) {
        }
      }
    }
  }

  /**
   * Pulling EllipseShape.clone() up to BaseShape while RectShape.clone()
   * returns RectShape: the copy returns BaseShape and its local `that` is
   * redeclared as BaseShape, whatever the HashSet iteration order.
   */
  lemma ShapesCloneReturnsBase(order: set<Type> -> seq<Type>)
    requires IsEnumerator(order)
    ensures Acyclic(ShapesHierarchy())
    ensures Adjustment(ShapesHierarchy(), ShapesState(), CloneReturning(ClassType(1)), 1, 0, order)
            == (Adjusted("返回类型从 " + "EllipseShape" + " 调整为 " + "BaseShape", ClassType(1), ClassType(0)),
                CloneReturning(ClassType(0)))
  {
    var h, s, m := ShapesHierarchy(), ShapesState(), CloneReturning(ClassType(1));
    ShapesFacts(h, s, m, order);
    ShapesCombined(h, s, m, order);
  }

  lemma ShapesCombined(h: Hierarchy, s: State, m: Method, order: set<Type> -> seq<Type>)
    requires Acyclic(h) && |s| == |h| && IsEnumerator(order) && m.returnType == ClassType(1)
    requires Siblings(h, 0, 1, |h|) == [2]
    requires ConflictingMethods(h, s, m, [2], 1) == [CloneReturning(ClassType(2))]
    requires CompatibleReturnType(h, m, [CloneReturning(ClassType(2))], order) == ClassType(0)
    requires AdjustmentMessage(h, m.returnType, ClassType(0)) == "返回类型从 " + "EllipseShape" + " 调整为 " + "BaseShape"
    requires AdjustReturnStatements(m.(returnType := ClassType(0)), m.returnType, ClassType(0)) == CloneReturning(ClassType(0))
    ensures Adjustment(h, s, m, 1, 0, order)
            == (Adjusted("返回类型从 " + "EllipseShape" + " 调整为 " + "BaseShape", ClassType(1), ClassType(0)),
                CloneReturning(ClassType(0)))
  {
    AdjustedTo(h, s, m, 1, 0, order, [2], [CloneReturning(ClassType(2))], ClassType(0));
  }

  /** What the adjustment of EllipseShape.clone() goes through, step by step. */
  lemma ShapesFacts(h: Hierarchy, s: State, m: Method, order: set<Type> -> seq<Type>)
    requires h == ShapesHierarchy() && s == ShapesState() && m == CloneReturning(ClassType(1))
    requires IsEnumerator(order)
    ensures Acyclic(h) && |s| == |h| && m.returnType == ClassType(1)
    ensures Siblings(h, 0, 1, |h|) == [2]
    ensures ConflictingMethods(h, s, m, [2], 1) == [CloneReturning(ClassType(2))]
    ensures CompatibleReturnType(h, m, [CloneReturning(ClassType(2))], order) == ClassType(0)
    ensures AdjustmentMessage(h, m.returnType, ClassType(0)) == "返回类型从 " + "EllipseShape" + " 调整为 " + "BaseShape"
    ensures AdjustReturnStatements(m.(returnType := ClassType(0)), m.returnType, ClassType(0)) == CloneReturning(ClassType(0))
  {
    ShapesAcyclic();
    ShapesParents(h);
    ShapesConflict();
    ShapesCompatible(order);
    ShapesAdjustedCopy(h, m);
  }

  /** The copy is adjusted to `compatible` when a sibling clashes and the two types share it. */
  lemma AdjustedTo(h: Hierarchy, s: State, m: Method, child: nat, parent: nat, order: set<Type> -> seq<Type>,
                   siblings: seq<nat>, conflicting: seq<Method>, compatible: Type)
    requires Acyclic(h) && |s| == |h| && IsEnumerator(order)
    requires m.returnType != Absent && !IsPrimitive(m.returnType) && compatible != Absent
    requires siblings == Siblings(h, parent, child, |h|) && siblings != []
    requires conflicting == ConflictingMethods(h, s, m, siblings, |siblings|) && conflicting != []
    requires compatible == CompatibleReturnType(h, m, conflicting, order)
    ensures Adjustment(h, s, m, child, parent, order)
            == (Adjusted(AdjustmentMessage(h, m.returnType, compatible), m.returnType, compatible),
                AdjustReturnStatements(m.(returnType := compatible), m.returnType, compatible))
  {
  }

  /** The message names the two classes, and the retyped copy is the clone returning BaseShape. */
  lemma ShapesAdjustedCopy(h: Hierarchy, m: Method)
    requires h == ShapesHierarchy() && m == CloneReturning(ClassType(1))
    ensures AdjustmentMessage(h, m.returnType, ClassType(0)) == "返回类型从 " + "EllipseShape" + " 调整为 " + "BaseShape"
    ensures AdjustReturnStatements(m.(returnType := ClassType(0)), m.returnType, ClassType(0)) == CloneReturning(ClassType(0))
  {
    assert SimpleTypeName(h, ClassType(1)) == "EllipseShape" && SimpleTypeName(h, ClassType(0)) == "BaseShape";
    assert RetypeLocals([LocalVar("that", ClassType(1))], ClassType(1), ClassType(0)) == [LocalVar("that", ClassType(0))];
  }

  // ------------------------------------------------------ library return types

  /**
   * java.util's AbstractList, with AbstractSequentialList below it, and
   * ArrayList and LinkedList below those, as their shadow declarations show
   * them, trimmed to the superclass references below AbstractList.
   */
  function AbstractListType(): Type {
    LibraryType("java.util.AbstractList", Some(Shadow(false, Absent, [])))
  }

  function AbstractSequentialListType(): Type {
    LibraryType("java.util.AbstractSequentialList", Some(Shadow(false, AbstractListType(), [])))
  }

  function ArrayListType(): Type {
    LibraryType("java.util.ArrayList", Some(Shadow(false, AbstractListType(), [])))
  }

  function LinkedListType(): Type {
    LibraryType("java.util.LinkedList", Some(Shadow(false, AbstractSequentialListType(), [])))
  }

  function ListReturning(returned: Type): Method {
    Method("items", [], returned, {Public}, [], [], Some(Body("{ return items; }", [])))
  }

  lemma ListSuperTypes()
    ensures AllSuperTypes([], ArrayListType()) == {AbstractListType()}
    ensures AllSuperTypes([], LinkedListType()) == {AbstractSequentialListType(), AbstractListType()}
  {
    assert SuperclassChain([], AbstractListType()) == [];
    assert SuperclassChain([], ArrayListType()) == [AbstractListType()];
    assert SuperclassChain([], AbstractSequentialListType()) == [AbstractListType()];
    assert SuperclassChain([], LinkedListType()) == [AbstractSequentialListType(), AbstractListType()];
  }

  /** A set of two types is enumerated in one of its two orders. */
  lemma PairOrder(order: set<Type> -> seq<Type>, a: Type, b: Type)
    requires IsEnumerator(order) && a != b
    ensures order({a, b}) == [a, b] || order({a, b}) == [b, a]
  {
    var ts := order({a, b});
    assert Enumerates(ts, {a, b});
    assert multiset(ts) == multiset{a, b};
    assert |ts| == 2;
    assert ts == [ts[0], ts[1]];
    assert ts[0] in multiset(ts) && ts[1] in multiset(ts);
    assert multiset(ts) == multiset{ts[0], ts[1]};
  }

  /**
   * A method returning ArrayList whose sibling's clash returns LinkedList: the
   * compatible return type is their shared library superclass AbstractList,
   * whatever the HashSet iteration order.
   */
  lemma ListsCompatible(order: set<Type> -> seq<Type>)
    requires IsEnumerator(order)
    ensures CompatibleReturnType([], ListReturning(ArrayListType()), [ListReturning(LinkedListType())], order) == AbstractListType()
  {
    var types := ReconciledTypes(ListReturning(ArrayListType()), [ListReturning(LinkedListType())]);
    ListTypesReconciled();
    ListsShare(order);
    assert CommonSuperType([], types, order) == AbstractListType();
  }

  lemma ListTypesReconciled()
    ensures ReconciledTypes(ListReturning(ArrayListType()), [ListReturning(LinkedListType())]) == {ArrayListType(), LinkedListType()}
  {
    assert ReturnTypes([ListReturning(LinkedListType())]) == [LinkedListType()];
  }

  /** The common supertype of ArrayList and LinkedList, in either iteration order. */
  lemma ListsShare(order: set<Type> -> seq<Type>)
    requires IsEnumerator(order)
    ensures CommonSuperType([], {ArrayListType(), LinkedListType()}, order) == AbstractListType()
  {
    var types := {ArrayListType(), LinkedListType()};
    var ts := order(types);
    PairOrder(order, ArrayListType(), LinkedListType());
    IntersectedPair([], ts);
    ListSuperTypes();
    assert AbstractSequentialListType() != AbstractListType();
    assert Intersected([], ts[0], ts, |ts|) == {AbstractListType()};
    TwoDistinct(types, ArrayListType(), LinkedListType());
    assert CommonSuperType([], types, order) == FirstNotObject(order(Intersected([], ts[0], ts, |ts|)));
    SingletonOrder(order, AbstractListType());
  }

  lemma IntersectedPair(h: Hierarchy, ts: seq<Type>)
    requires Acyclic(h) && |ts| == 2 && ts[0] != ts[1]
    ensures Intersected(h, ts[0], ts, |ts|) == AllSuperTypes(h, ts[0]) * AllSuperTypes(h, ts[1])
  {
    assert Intersected(h, ts[0], ts, 1) == AllSuperTypes(h, ts[0]);
  }
}
