/**
 * The conflict check run before a pull-up: does the destination already
 * declare the method, or an overload a call could confuse with it?
 * Everything here only reads the model.
 */
module MethodConflictChecker {
  import opened Common
  import opened JavaModel

  datatype ConflictType = NONE | CONFLICT | DUPLICATE | ERROR

  datatype ConflictCheckResult = ConflictCheckResult(success: bool, message: string, conflictType: ConflictType)

  function Succeeded(message: string): ConflictCheckResult {
    ConflictCheckResult(true, message, NONE)
  }

  function Failed(message: string): ConflictCheckResult {
    ConflictCheckResult(false, message, ERROR)
  }

  function Conflicting(message: string): ConflictCheckResult {
    ConflictCheckResult(false, message, CONFLICT)
  }

  function Duplicated(message: string): ConflictCheckResult {
    ConflictCheckResult(false, message, DUPLICATE)
  }

  /** hasSameSignature: same name, same arity, equal parameter types position by position, and equal return type. */
  predicate HasSameSignature(m1: Method, m2: Method) {
    m1.name == m2.name && SameParameters(m1.params, m2.params) && m1.returnType == m2.returnType
  }

  /** A body's text as the comparison sees it: whitespace runs collapsed to one space, then trimmed. */
  function NormalizedText(b: Body): string {
    Trim(CollapseSpaces(b.text))
  }

  /** areMethodBodiesIdentical. */
  predicate AreMethodBodiesIdentical(m1: Method, m2: Method) {
    if m1.body.None? && m2.body.None? then true
    else if m1.body.None? || m2.body.None? then false
    else NormalizedText(m1.body.value) == NormalizedText(m2.body.value)
  }

  /** Both directions of the body comparison's three cases. */
  lemma BodiesIdenticalCases(m1: Method, m2: Method)
    ensures AreMethodBodiesIdentical(m1, m2) <==>
              (m1.body.None? && m2.body.None?)
              || (m1.body.Some? && m2.body.Some? && NormalizedText(m1.body.value) == NormalizedText(m2.body.value))
  {
  }

  /** areRelatedTypes: equal, or one a subtype of the other. */
  predicate AreRelatedTypes(h: Hierarchy, t1: Type, t2: Type)
    requires Acyclic(h)
  {
    t1 == t2 || SubtypeOrSame(h, t1, t2) || SubtypeOrSame(h, t2, t1)
  }

  /** The scan of couldCauseAmbiguity's loop: some position holds related types. */
  predicate SomePositionRelated(h: Hierarchy, ps1: seq<Param>, ps2: seq<Param>)
    requires Acyclic(h) && |ps1| == |ps2|
  {
    |ps1| > 0 && (AreRelatedTypes(h, ps1[0].ptype, ps2[0].ptype) || SomePositionRelated(h, ps1[1..], ps2[1..]))
  }

  /** couldCauseAmbiguity: equal arity and at least one position with related parameter types. */
  predicate CouldCauseAmbiguity(h: Hierarchy, m1: Method, m2: Method)
    requires Acyclic(h)
  {
    |m1.params| == |m2.params| && SomePositionRelated(h, m1.params, m2.params)
  }

  lemma {:induction false} SomePositionRelatedIff(h: Hierarchy, ps1: seq<Param>, ps2: seq<Param>)
    requires Acyclic(h) && |ps1| == |ps2|
    ensures SomePositionRelated(h, ps1, ps2) <==> exists i :: 0 <= i < |ps1| && AreRelatedTypes(h, ps1[i].ptype, ps2[i].ptype)
  {
    if |ps1| > 0 {
      SomePositionRelatedIff(h, ps1[1..], ps2[1..]);
      if exists i :: 0 <= i < |ps1| && AreRelatedTypes(h, ps1[i].ptype, ps2[i].ptype) {
        var i :| 0 <= i < |ps1| && AreRelatedTypes(h, ps1[i].ptype, ps2[i].ptype);
        if i > 0 {
          assert ps1[1..][i - 1] == ps1[i] && ps2[1..][i - 1] == ps2[i];
        }
      }
      if SomePositionRelated(h, ps1[1..], ps2[1..]) {
        var i :| 0 <= i < |ps1| - 1 && AreRelatedTypes(h, ps1[1..][i].ptype, ps2[1..][i].ptype);
        assert ps1[i + 1] == ps1[1..][i];
      }
    }
  }

  /** Ambiguity in both directions: equal arity and some related position; a different arity never conflicts. */
  lemma AmbiguityIff(h: Hierarchy, m1: Method, m2: Method)
    requires Acyclic(h)
    ensures CouldCauseAmbiguity(h, m1, m2) <==>
              |m1.params| == |m2.params| && exists i :: 0 <= i < |m1.params| && AreRelatedTypes(h, m1.params[i].ptype, m2.params[i].ptype)
  {
    if |m1.params| == |m2.params| {
      SomePositionRelatedIff(h, m1.params, m2.params);
    }
  }

  /** Spoon's `getSignature()` of a method: its name and its parameter types' qualified names. */
  function Signature(h: Hierarchy, m: Method): string {
    m.name + "(" + Join(TypeNames(h, ParamTypes(m.params)), ",") + ")"
  }

  function TypeNames(h: Hierarchy, ts: seq<Type>): (r: seq<string>)
    ensures |r| == |ts|
  {
    if ts == [] then [] else [QualifiedName(h, ts[0])] + TypeNames(h, ts[1..])
  }

  /** findMethodWithSameSignature: the first method of the destination with the same signature. */
  function SameSignatureIndex(m: Method, methods: seq<Method>): (r: Option<nat>)
    ensures r.Some? ==> r.value < |methods| && HasSameSignature(m, methods[r.value])
                        && forall j :: 0 <= j < r.value ==> !HasSameSignature(m, methods[j])
    ensures r.None? ==> forall j :: 0 <= j < |methods| ==> !HasSameSignature(m, methods[j])
  {
    if methods == [] then None
    else if HasSameSignature(m, methods[0]) then Some(0)
    else match SameSignatureIndex(m, methods[1..])
      case None => None
      case Some(k) => Some(k + 1)
  }

  /** findMethodsWithSameName: the destination's methods with that name, in order. */
  function SameNameMethods(methods: seq<Method>, name: string): (r: seq<Method>)
    ensures forall x :: x in r <==> x in methods && x.name == name
  {
    if methods == [] then []
    else if methods[0].name == name then [methods[0]] + SameNameMethods(methods[1..], name)
    else SameNameMethods(methods[1..], name)
  }

  /** checkOverloadConflict: the first existing method a call could confuse with `m` makes a conflict. */
  function CheckOverloadConflict(h: Hierarchy, m: Method, existing: seq<Method>): (r: ConflictCheckResult)
    requires Acyclic(h)
    ensures r.conflictType == NONE || r.conflictType == CONFLICT
    ensures r.success <==> r.conflictType == NONE
    ensures r.success <==> forall x :: x in existing ==> !CouldCauseAmbiguity(h, m, x)
  {
    if existing == [] then Succeeded("重载方法检查通过")
    else if CouldCauseAmbiguity(h, m, existing[0]) then
      Conflicting("方法重载可能导致调用歧义: " + m.name + " 与现有方法 " + Signature(h, existing[0]))
    else CheckOverloadConflict(h, m, existing[1..])
  }

  /**
   * checkConflict: the destination (None for a null class) is checked first for
   * a method with the same signature, then for same-name overloads.
   */
  function CheckConflict(h: Hierarchy, s: State, m: Method, parent: Option<nat>): ConflictCheckResult
    requires Acyclic(h) && |s| == |h|
    requires parent.Some? ==> parent.value < |h|
  {
    if parent.None? then Failed("父类不存在")
    else
      var methods := s[parent.value].methods;
      match SameSignatureIndex(m, methods)
      case Some(k) =>
        if AreMethodBodiesIdentical(m, methods[k]) then Duplicated("父类中已存在相同的方法: " + m.name)
        else Conflicting("父类中存在同名但实现不同的方法: " + m.name)
      case None =>
        var overloads := SameNameMethods(methods, m.name);
        if overloads != [] && !CheckOverloadConflict(h, m, overloads).success then CheckOverloadConflict(h, m, overloads)
        else Succeeded("方法可以安全上提")
  }

  /** A null destination is a failure of type ERROR. */
  lemma NullDestination(h: Hierarchy, s: State, m: Method)
    requires Acyclic(h) && |s| == |h|
    ensures CheckConflict(h, s, m, None).conflictType == ERROR && !CheckConflict(h, s, m, None).success
  {
  }

  /**
   * The outcome for an existing destination, case by case: a same-signature
   * method decides between DUPLICATE and CONFLICT by its body (the first such
   * method counts); otherwise a confusable same-name method is a CONFLICT;
   * otherwise the check succeeds with NONE. Only NONE is a success.
   */
  lemma {:induction false} ConflictOutcome(h: Hierarchy, s: State, m: Method, p: nat)
    requires Acyclic(h) && |s| == |h| && p < |h|
    ensures var r := CheckConflict(h, s, m, Some(p));
            var methods := s[p].methods;
            && (r.success <==> r.conflictType == NONE)
            && (r.conflictType == DUPLICATE <==>
                  exists k :: 0 <= k < |methods| && HasSameSignature(m, methods[k]) && AreMethodBodiesIdentical(m, methods[k])
                              && forall j :: 0 <= j < k ==> !HasSameSignature(m, methods[j]))
            && (r.conflictType == NONE <==>
                  (forall j :: 0 <= j < |methods| ==> !HasSameSignature(m, methods[j]))
                  && forall j :: 0 <= j < |methods| && methods[j].name == m.name ==> !CouldCauseAmbiguity(h, m, methods[j]))
            && r.conflictType != ERROR
  {
    var methods := s[p].methods;
    var r := CheckConflict(h, s, m, Some(p));
    match SameSignatureIndex(m, methods)
    case Some(k) =>
      assert r.conflictType != NONE;
      if r.conflictType != DUPLICATE {
        forall k' | 0 <= k' < |methods| && HasSameSignature(m, methods[k']) && AreMethodBodiesIdentical(m, methods[k'])
          ensures exists j :: 0 <= j < k' && HasSameSignature(m, methods[j])
        {
          assert k' != k;
          if k' > k {
            assert HasSameSignature(m, methods[k]);
          }
        }
      }
    case None =>
      var overloads := SameNameMethods(methods, m.name);
      if r.conflictType == NONE {
        forall j | 0 <= j < |methods| && methods[j].name == m.name
          ensures !CouldCauseAmbiguity(h, m, methods[j])
        {
          assert methods[j] in overloads;
        }
      } else {
        assert overloads != [] && !CheckOverloadConflict(h, m, overloads).success;
        var x :| x in overloads && CouldCauseAmbiguity(h, m, x);
        var j :| 0 <= j < |methods| && methods[j] == x;
      }
  }

  /**
   * A method with the same name and the same parameter types but another
   * return type is not "the same signature", yet with at least one parameter
   * it is reported as an overload conflict.
   */
  lemma ReturnTypeOnlyDifference(h: Hierarchy, s: State, m: Method, p: nat, k: nat)
    requires Acyclic(h) && |s| == |h| && p < |h| && k < |s[p].methods|
    requires s[p].methods[k].name == m.name && SameParameters(s[p].methods[k].params, m.params)
    requires s[p].methods[k].returnType != m.returnType && |m.params| > 0
    requires forall j :: 0 <= j < |s[p].methods| ==> !HasSameSignature(m, s[p].methods[j])
    ensures CheckConflict(h, s, m, Some(p)).conflictType == CONFLICT
  {
    var x := s[p].methods[k];
    assert AreRelatedTypes(h, m.params[0].ptype, x.params[0].ptype);
    AmbiguityIff(h, m, x);
    ConflictOutcome(h, s, m, p);
  }

  /*
   * Two parameterless methods with one name can never be told apart by a
   * call, yet the loop of couldCauseAmbiguity finds no related position in an
   * empty parameter list. So a parameterless destination method that differs
   * from the pulled-up one only in its return type is reported as safe, while
   * the same pair with one parameter is a CONFLICT (ReturnTypeOnlyDifference).
   */

  /** As written: a parameterless same-name method with another return type lets the check succeed. */
  lemma ParameterlessClashAccepted(h: Hierarchy, s: State, m: Method, p: nat)
    requires Acyclic(h) && |s| == |h| && p < |h| && |s[p].methods| == 1
    requires s[p].methods[0].name == m.name && s[p].methods[0].params == [] && m.params == []
    requires s[p].methods[0].returnType != m.returnType
    ensures CheckConflict(h, s, m, Some(p)).success
  {
    var x := s[p].methods[0];
    assert !HasSameSignature(m, x);
    assert SameNameMethods(s[p].methods, m.name) == [x] by {
      assert s[p].methods == [x];
      assert s[p].methods[1..] == [];
    }
    assert !CouldCauseAmbiguity(h, m, x);
  }

  /** Ambiguity as intended: equal arity and either no parameters at all or some related position. */
  predicate CouldCauseAmbiguityCorrected(h: Hierarchy, m1: Method, m2: Method)
    requires Acyclic(h)
  {
    |m1.params| == |m2.params| && (|m1.params| == 0 || SomePositionRelated(h, m1.params, m2.params))
  }

  /** checkOverloadConflict over the intended ambiguity test. */
  function CheckOverloadConflictCorrected(h: Hierarchy, m: Method, existing: seq<Method>): (r: ConflictCheckResult)
    requires Acyclic(h)
    ensures r.conflictType == NONE || r.conflictType == CONFLICT
    ensures r.success <==> r.conflictType == NONE
    ensures r.success <==> forall x :: x in existing ==> !CouldCauseAmbiguityCorrected(h, m, x)
  {
    if existing == [] then Succeeded("重载方法检查通过")
    else if CouldCauseAmbiguityCorrected(h, m, existing[0]) then
      Conflicting("方法重载可能导致调用歧义: " + m.name + " 与现有方法 " + Signature(h, existing[0]))
    else CheckOverloadConflictCorrected(h, m, existing[1..])
  }

  /** checkConflict with the intended overload test; the rest of the refactoring uses this one. */
  function CheckConflictCorrected(h: Hierarchy, s: State, m: Method, parent: Option<nat>): ConflictCheckResult
    requires Acyclic(h) && |s| == |h|
    requires parent.Some? ==> parent.value < |h|
  {
    if parent.None? then Failed("父类不存在")
    else
      var methods := s[parent.value].methods;
      match SameSignatureIndex(m, methods)
      case Some(k) =>
        if AreMethodBodiesIdentical(m, methods[k]) then Duplicated("父类中已存在相同的方法: " + m.name)
        else Conflicting("父类中存在同名但实现不同的方法: " + m.name)
      case None =>
        var overloads := SameNameMethods(methods, m.name);
        if overloads != [] && !CheckOverloadConflictCorrected(h, m, overloads).success then CheckOverloadConflictCorrected(h, m, overloads)
        else Succeeded("方法可以安全上提")
  }

  /** Corrected: the parameterless clash is a CONFLICT. */
  lemma ParameterlessClashRejected(h: Hierarchy, s: State, m: Method, p: nat)
    requires Acyclic(h) && |s| == |h| && p < |h| && |s[p].methods| == 1
    requires s[p].methods[0].name == m.name && s[p].methods[0].params == [] && m.params == []
    requires s[p].methods[0].returnType != m.returnType
    ensures CheckConflictCorrected(h, s, m, Some(p)).conflictType == CONFLICT
  {
    var x := s[p].methods[0];
    assert !HasSameSignature(m, x);
    assert SameNameMethods(s[p].methods, m.name) == [x] by {
      assert s[p].methods == [x];
      assert s[p].methods[1..] == [];
    }
    assert CouldCauseAmbiguityCorrected(h, m, x);
  }

  /** The overload scans agree whenever the pulled-up method takes parameters. */
  lemma {:induction false} OverloadAgreesWithParameters(h: Hierarchy, m: Method, existing: seq<Method>)
    requires Acyclic(h) && |m.params| > 0
    ensures CheckOverloadConflictCorrected(h, m, existing) == CheckOverloadConflict(h, m, existing)
  {
    if existing != [] {
      OverloadAgreesWithParameters(h, m, existing[1..]);
    }
  }

  /** The correction changes nothing for a method with parameters, nor for a null destination. */
  lemma CorrectedAgreesWithParameters(h: Hierarchy, s: State, m: Method, parent: Option<nat>)
    requires Acyclic(h) && |s| == |h|
    requires parent.Some? ==> parent.value < |h|
    requires |m.params| > 0 || parent.None?
    ensures CheckConflictCorrected(h, s, m, parent) == CheckConflict(h, s, m, parent)
  {
    if parent.Some? {
      OverloadAgreesWithParameters(h, m, SameNameMethods(s[parent.value].methods, m.name));
    }
  }

  /**
   * The corrected outcome for an existing destination: NONE exactly when no
   * method has the same signature and no same-name method is confusable
   * under the intended test.
   */
  lemma CorrectedSafeIff(h: Hierarchy, s: State, m: Method, p: nat)
    requires Acyclic(h) && |s| == |h| && p < |h|
    ensures var r := CheckConflictCorrected(h, s, m, Some(p));
            var methods := s[p].methods;
            && (r.success <==> r.conflictType == NONE)
            && (r.conflictType == NONE <==>
                  (forall j :: 0 <= j < |methods| ==> !HasSameSignature(m, methods[j]))
                  && forall j :: 0 <= j < |methods| && methods[j].name == m.name ==> !CouldCauseAmbiguityCorrected(h, m, methods[j]))
  {
    var methods := s[p].methods;
    var r := CheckConflictCorrected(h, s, m, Some(p));
    match SameSignatureIndex(m, methods)
    case Some(k) =>
    case None =>
      var overloads := SameNameMethods(methods, m.name);
      if r.conflictType == NONE {
        forall j | 0 <= j < |methods| && methods[j].name == m.name
          ensures !CouldCauseAmbiguityCorrected(h, m, methods[j])
        {
          assert methods[j] in overloads;
        }
      } else {
        var x :| x in overloads && CouldCauseAmbiguityCorrected(h, m, x);
        var j :| 0 <= j < |methods| && methods[j] == x;
      }
  }

  // ------------------------------------------------------ an interface parameter

  /** Listener, an interface; Base, the destination; Impl extending Base and implementing Listener. */
  function ListenerHierarchy(): Hierarchy {
    [Header("test.Listener", "Listener", true, Absent, [], None),
     Header("test.Base", "Base", false, Absent, [], None),
     Header("test.Impl", "Impl", false, ClassType(1), [ClassType(0)], None)]
  }

  function Register(param: Type): Method {
    Method("register", [Param("l", param)], Void, {Public}, [], [], Some(Body("{ }", [])))
  }

  /** Base declares `register(Listener)`. */
  function ListenerState(): State {
    [Members(false, [], []), Members(false, [Register(ClassType(0))], []), Members(false, [], [])]
  }

  /** The model has no cycle, and Impl is below Listener. */
  lemma ListenerFacts(h: Hierarchy)
    requires h == ListenerHierarchy()
    ensures Acyclic(h) && SubtypeOrSame(h, ClassType(2), ClassType(0))
  {
    SuperclassesFirstAcyclic(h);
    assert DirectSupertypes(h, ClassType(2)) == [ClassType(1), ClassType(0)];
    SupertypeReached(h, ClassType(2), ClassType(0));
  }

  /**
   * Pulling `register(Impl)` up to Base is a CONFLICT, as written and
   * corrected alike: Impl is a subtype of Listener through the interface it
   * implements, so a call could match either overload.
   */
  lemma InterfaceParameterConflicts(h: Hierarchy, s: State)
    requires h == ListenerHierarchy() && s == ListenerState()
    ensures Acyclic(h)
    ensures CheckConflict(h, s, Register(ClassType(2)), Some(1)).conflictType == CONFLICT
    ensures CheckConflictCorrected(h, s, Register(ClassType(2)), Some(1)).conflictType == CONFLICT
  {
    ListenerFacts(h);
    var m := Register(ClassType(2));
    var existing := Register(ClassType(0));
    assert s[1].methods == [existing];
    assert m.params[0].ptype != existing.params[0].ptype;
    assert !HasSameSignature(m, existing);
    assert SameNameMethods(s[1].methods, "register") == [existing];
    assert AreRelatedTypes(h, m.params[0].ptype, existing.params[0].ptype);
    assert CouldCauseAmbiguity(h, m, existing);
    CorrectedAgreesWithParameters(h, s, m, Some(1));
  }
}
