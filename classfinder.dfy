/**
 * Lookups over the code model: classes by name, methods by name or by
 * signature, direct subclasses, and name listings. None of them changes the
 * model: the methods here have no `modifies` clause and work on values.
 */
module ClassFinder {
  import opened Common
  import opened JavaModel

  /** Declaration `i` is a class (not an interface) whose simple or qualified name is `name`. */
  predicate NamedClass(h: Hierarchy, i: nat, name: string) {
    IsClass(h, i) && (h[i].simpleName == name || h[i].qname == name)
  }

  /** The first class, in model order, named `name`. */
  function ClassNamed(h: Hierarchy, name: string): (r: Option<nat>)
    ensures r.Some? ==> NamedClass(h, r.value, name) && forall j :: 0 <= j < r.value ==> !NamedClass(h, j, name)
    ensures r.None? ==> forall j :: 0 <= j < |h| ==> !NamedClass(h, j, name)
  {
    ClassNamedFrom(h, name, 0)
  }

  function ClassNamedFrom(h: Hierarchy, name: string, from: nat): (r: Option<nat>)
    ensures r.Some? ==> from <= r.value && NamedClass(h, r.value, name) && forall j :: from <= j < r.value ==> !NamedClass(h, j, name)
    ensures r.None? ==> forall j :: from <= j < |h| ==> !NamedClass(h, j, name)
    decreases |h| - from
  {
    if from >= |h| then None
    else if NamedClass(h, from, name) then Some(from)
    else ClassNamedFrom(h, name, from + 1)
  }

  /** findClass: scans the model's types in order and returns the first class with that simple or qualified name. */
  method FindClass(h: Hierarchy, name: string) returns (r: Option<nat>)
    ensures r.Some? ==> NamedClass(h, r.value, name) && forall j :: 0 <= j < r.value ==> !NamedClass(h, j, name)
    ensures r.None? ==> forall j :: 0 <= j < |h| ==> !NamedClass(h, j, name)
    ensures r == ClassNamed(h, name)
  {
    var i := 0;
    while i < |h|
      invariant 0 <= i <= |h|
      invariant forall j :: 0 <= j < i ==> !NamedClass(h, j, name)
    {
      if !h[i].isInterface && (h[i].simpleName == name || h[i].qname == name) {
        return Some(i);
      }
      i := i + 1;
    }
    return None;
  }

  /** findMethod: the first declared method called `name`, so the earliest overload wins. */
  function FindMethod(methods: seq<Method>, name: string): (r: Option<nat>)
    ensures r.Some? ==> r.value < |methods| && methods[r.value].name == name
                        && forall j :: 0 <= j < r.value ==> methods[j].name != name
    ensures r.None? ==> forall j :: 0 <= j < |methods| ==> methods[j].name != name
  {
    if methods == [] then None
    else if methods[0].name == name then Some(0)
    else match FindMethod(methods[1..], name)
      case None => None
      case Some(k) => Some(k + 1)
  }

  /** isDirectSubclass: `child` has a superclass whose qualified name is the parent's qualified name. */
  predicate IsDirectSubclass(h: Hierarchy, child: nat, parent: nat)
    requires child < |h| && parent < |h|
  {
    h[child].superclass != Absent && QualifiedName(h, h[child].superclass) == h[parent].qname
  }

  /** The superclass getParentClass resolves always passes the name test of isDirectSubclass. */
  lemma ParentIsDirectSuperclass(h: Hierarchy, c: nat)
    requires c < |h| && Parent(h, c).Some?
    ensures IsDirectSubclass(h, c, Parent(h, c).value)
  {
  }

  /**
   * Where qualified names are unique and the superclass is a declaration of
   * the model, the name test of isDirectSubclass holds for a class exactly
   * when getParentClass resolves to it.
   */
  lemma DirectSubclassIsParent(h: Hierarchy, c: nat, p: nat)
    requires c < |h| && IsClass(h, p)
    requires forall i, j :: 0 <= i < j < |h| ==> h[i].qname != h[j].qname
    requires h[c].superclass.ClassType? && h[c].superclass.index < |h|
    ensures IsDirectSubclass(h, c, p) <==> Parent(h, c) == Some(p)
  {
    var s := h[c].superclass.index;
    if IsDirectSubclass(h, c, p) {
      assert h[s].qname == h[p].qname;
      assert s == p;
    }
  }

  /** The direct subclasses of `parent` in model order. */
  function ChildClasses(h: Hierarchy, parent: nat, from: nat): seq<nat>
    requires parent < |h|
    decreases |h| - from
  {
    if from >= |h| then []
    else if IsClass(h, from) && IsDirectSubclass(h, from, parent) then [from] + ChildClasses(h, parent, from + 1)
    else ChildClasses(h, parent, from + 1)
  }

  /** The scan from `from` lists exactly the direct subclasses at or after `from`, in increasing order. */
  lemma {:induction false} ChildClassesMembers(h: Hierarchy, parent: nat, from: nat)
    requires parent < |h|
    ensures forall c: nat :: c in ChildClasses(h, parent, from) <==> from <= c < |h| && IsClass(h, c) && IsDirectSubclass(h, c, parent)
    ensures Increasing(ChildClasses(h, parent, from))
    decreases |h| - from
  {
    if from < |h| {
      ChildClassesMembers(h, parent, from + 1);
      ChildClassesStep(h, parent, from);
      var rest := ChildClasses(h, parent, from + 1);
      if IsClass(h, from) && IsDirectSubclass(h, from, parent) {
        forall c: nat ensures c in [from] + rest <==> c == from || c in rest {
        }
        IncreasingCons(from, rest);
      }
    }
  }

  /** Strictly increasing indices. */
  predicate Increasing(r: seq<nat>) {
    forall i, j :: 0 <= i < j < |r| ==> r[i] < r[j]
  }

  lemma IncreasingCons(x: nat, rest: seq<nat>)
    requires Increasing(rest) && forall c :: c in rest ==> x < c
    ensures Increasing([x] + rest)
  {
    var r := [x] + rest;
    forall i, j | 0 <= i < j < |r| ensures r[i] < r[j] {
      assert r[j] == rest[j - 1] && rest[j - 1] in rest;
      if i > 0 {
        assert r[i] == rest[i - 1];
      } else {
        assert r[i] == x;
      }
    }
  }

  /** One step of the scan: the class at `from` comes first when it is a direct subclass. */
  lemma ChildClassesStep(h: Hierarchy, parent: nat, from: nat)
    requires parent < |h| && from < |h|
    ensures ChildClasses(h, parent, from) ==
      if IsClass(h, from) && IsDirectSubclass(h, from, parent) then [from] + ChildClasses(h, parent, from + 1)
      else ChildClasses(h, parent, from + 1)
  {
  }

  /** collectAllChildClasses: every class of the model that passes isDirectSubclass, in model order. */
  method CollectAllChildClasses(h: Hierarchy, parent: nat) returns (r: seq<nat>)
    requires parent < |h|
    ensures r == ChildClasses(h, parent, 0)
    ensures forall c: nat :: c in r <==> c < |h| && IsClass(h, c) && IsDirectSubclass(h, c, parent)
    ensures Increasing(r)
  {
    r := [];
    var i: nat := 0;
    while i < |h|
      invariant i <= |h|
      invariant r + ChildClasses(h, parent, i) == ChildClasses(h, parent, 0)
    {
      ChildClassesStep(h, parent, i);
      ghost var rest := ChildClasses(h, parent, i + 1);
      if !h[i].isInterface && IsDirectSubclass(h, i, parent) {
        AppendAssoc(r, [i], rest);
        r := r + [i];
      }
      assert r + rest == ChildClasses(h, parent, 0);
      i := i + 1;
    }
    ChildClassesMembers(h, parent, 0);
  }

  /** Method `m` is called `name` and its parameters match `params` type by type. */
  predicate Matches(m: Method, name: string, params: seq<Param>) {
    m.name == name && SameParameters(m.params, params)
  }

  /** findMatchingMethod: the first method with that name, arity and parameter types; None if there is none. */
  method FindMatchingMethod(methods: seq<Method>, name: string, params: seq<Param>) returns (r: Option<nat>)
    ensures r.Some? ==> r.value < |methods| && Matches(methods[r.value], name, params)
                        && forall j :: 0 <= j < r.value ==> !Matches(methods[j], name, params)
    ensures r.None? ==> forall j :: 0 <= j < |methods| ==> !Matches(methods[j], name, params)
    ensures r == MatchingMethod(methods, name, params)
  {
    var k := 0;
    while k < |methods|
      invariant 0 <= k <= |methods|
      invariant forall j :: 0 <= j < k ==> !Matches(methods[j], name, params)
    {
      var candidate := methods[k];
      if candidate.name == name && |candidate.params| == |params| {
        var parametersMatch := true;
        var i := 0;
        while i < |params|
          invariant 0 <= i <= |params|
          invariant parametersMatch <==> forall p :: 0 <= p < i ==> candidate.params[p].ptype == params[p].ptype
        {
          if candidate.params[i].ptype != params[i].ptype {
            parametersMatch := false;
            break;
          }
          i := i + 1;
        }
        if parametersMatch {
          FirstMatchUnique(methods, name, params, Some(k));
          return Some(k);
        }
      }
      k := k + 1;
    }
    FirstMatchUnique(methods, name, params, None);
    return None;
  }

  /** The first method matching `name` and `params`, as a function for the specifications of other operations. */
  function MatchingMethod(methods: seq<Method>, name: string, params: seq<Param>): (r: Option<nat>)
    ensures r.Some? ==> r.value < |methods| && Matches(methods[r.value], name, params)
                        && forall j :: 0 <= j < r.value ==> !Matches(methods[j], name, params)
    ensures r.None? ==> forall j :: 0 <= j < |methods| ==> !Matches(methods[j], name, params)
  {
    if methods == [] then None
    else if Matches(methods[0], name, params) then Some(0)
    else match MatchingMethod(methods[1..], name, params)
      case None => None
      case Some(k) => Some(k + 1)
  }

  /** Two results that both meet findMatchingMethod's contract are the same: the first match is unique. */
  lemma FirstMatchUnique(methods: seq<Method>, name: string, params: seq<Param>, r: Option<nat>)
    requires r.Some? ==> r.value < |methods| && Matches(methods[r.value], name, params)
                         && forall j :: 0 <= j < r.value ==> !Matches(methods[j], name, params)
    requires r.None? ==> forall j :: 0 <= j < |methods| ==> !Matches(methods[j], name, params)
    ensures r == MatchingMethod(methods, name, params)
  {
  }

  /** getMethodNames: the names of the declared methods in declaration order, repeats kept; empty for null. */
  method GetMethodNames(clazz: Option<Members>) returns (names: seq<string>)
    ensures clazz.None? ==> names == []
    ensures clazz.Some? ==> |names| == |clazz.value.methods|
                            && forall i :: 0 <= i < |names| ==> names[i] == clazz.value.methods[i].name
  {
    names := [];
    if clazz.Some? {
      var methods := clazz.value.methods;
      var i := 0;
      while i < |methods|
        invariant 0 <= i <= |methods|
        invariant |names| == i && forall j :: 0 <= j < i ==> names[j] == methods[j].name
      {
        names := names + [methods[i].name];
        i := i + 1;
      }
    }
  }

  /** The qualified names of the classes among `h[from..]`, in model order. */
  function ClassNames(h: Hierarchy, from: nat): seq<string>
    decreases |h| - from
  {
    if from >= |h| then []
    else if IsClass(h, from) then [h[from].qname] + ClassNames(h, from + 1)
    else ClassNames(h, from + 1)
  }

  /** getClassNames: the qualified names of the model's classes (interfaces skipped) in model order; empty for null. */
  method GetClassNames(model: Option<Hierarchy>) returns (names: seq<string>)
    ensures model.None? ==> names == []
    ensures model.Some? ==> names == ClassNames(model.value, 0)
    ensures model.Some? ==> forall n :: n in names <==> exists i :: 0 <= i < |model.value| && IsClass(model.value, i) && model.value[i].qname == n
  {
    names := [];
    if model.Some? {
      var h := model.value;
      var i := 0;
      while i < |h|
        invariant 0 <= i <= |h|
        invariant names + ClassNames(h, i) == ClassNames(h, 0)
      {
        if !h[i].isInterface {
          names := names + [h[i].qname];
        }
        i := i + 1;
      }
      ClassNamesMembers(h, 0);
    }
  }

  lemma {:induction false} ClassNamesMembers(h: Hierarchy, from: nat)
    ensures forall n :: n in ClassNames(h, from) <==> exists i :: from <= i < |h| && IsClass(h, i) && h[i].qname == n
    decreases |h| - from
  {
    if from < |h| {
      ClassNamesMembers(h, from + 1);
      forall n ensures n in ClassNames(h, from) <==> exists i :: from <= i < |h| && IsClass(h, i) && h[i].qname == n {
        if n in ClassNames(h, from) {
          if IsClass(h, from) && n == h[from].qname {
          } else {
            assert n in ClassNames(h, from + 1);
          }
        }
        if exists i :: from <= i < |h| && IsClass(h, i) && h[i].qname == n {
          var i :| from <= i < |h| && IsClass(h, i) && h[i].qname == n;
          if i > from {
            assert n in ClassNames(h, from + 1);
          }
        }
      }
    }
  }
}
