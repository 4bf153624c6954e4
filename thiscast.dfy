/**
 * The `this` cast fix applied to a method being pulled up: a call argument
 * `this` whose parameter type accepts the origin class but not the
 * destination becomes `(Origin) this`, so the call still type-checks once the
 * body lives in the destination.
 *
 * As for the return-type adjustment, the method is the detached copy made for
 * the pull-up, so the operations take it and give back its fixed version.
 */
module ThisCastFix {
  import opened Common
  import opened JavaModel

  /** The snippet that replaces the argument: the origin's qualified name in parentheses, then `this`. */
  function CastText(h: Hierarchy, child: nat): string
    requires child < |h|
  {
    "(" + h[child].qname + ") this"
  }

  /** The parameter type accepts the origin class but not the destination; a missing type never does. */
  predicate NeedsCast(h: Hierarchy, child: nat, parent: nat, expected: Type)
    requires Acyclic(h)
  {
    expected != Absent && !SubtypeOrSame(h, ClassType(parent), expected) && SubtypeOrSame(h, ClassType(child), expected)
  }

  function FixedArg(h: Hierarchy, child: nat, parent: nat, a: Arg, expected: Type): Arg
    requires Acyclic(h) && child < |h|
  {
    if a.ThisAccess? && NeedsCast(h, child, parent, expected) then Expr(CastText(h, child)) else a
  }

  /**
   * tryFixArguments on an argument list: nothing changes when there are no
   * arguments or the callee's parameter list has another length; otherwise
   * each argument is fixed against its parameter's type.
   */
  function FixedArgs(h: Hierarchy, child: nat, parent: nat, args: seq<Arg>, paramTypes: seq<Type>): (r: seq<Arg>)
    requires Acyclic(h) && child < |h|
    ensures |r| == |args|
  {
    if |args| == 0 || |paramTypes| != |args| then args
    else seq(|args|, i requires 0 <= i < |args| => FixedArg(h, child, parent, args[i], paramTypes[i]))
  }

  method TryFixArguments(h: Hierarchy, child: nat, parent: nat, paramTypes: seq<Type>, args: seq<Arg>) returns (fixed: seq<Arg>)
    requires Acyclic(h) && child < |h|
    ensures fixed == FixedArgs(h, child, parent, args, paramTypes)
  {
    fixed := args;
    if |args| == 0 || |paramTypes| != |args| {
      return;
    }
    for i := 0 to |args|
      invariant |fixed| == |args|
      invariant forall j :: 0 <= j < i ==> fixed[j] == FixedArg(h, child, parent, args[j], paramTypes[j])
      invariant forall j :: i <= j < |args| ==> fixed[j] == args[j]
    {
      var arg := fixed[i];
      if arg.ThisAccess? {
        var expected := paramTypes[i];
        if expected == Absent {
          continue;
        }
        if !SubtypeOrSame(h, ClassType(parent), expected) && SubtypeOrSame(h, ClassType(child), expected) {
          fixed := fixed[i := Expr(CastText(h, child))];
        }
      }
    }
  }

  /** A method invocation or a constructor call gets its arguments fixed; other elements are untouched. */
  function FixedElem(h: Hierarchy, child: nat, parent: nat, e: Elem): Elem
    requires Acyclic(h) && child < |h|
  {
    if e.Call? then e.(args := FixedArgs(h, child, parent, e.args, e.paramTypes)) else e
  }

  function FixedElems(h: Hierarchy, child: nat, parent: nat, elems: seq<Elem>, n: nat): (r: seq<Elem>)
    requires Acyclic(h) && child < |h| && n <= |elems|
    ensures |r| == n && forall i :: 0 <= i < n ==> r[i] == FixedElem(h, child, parent, elems[i])
  {
    if n == 0 then [] else FixedElems(h, child, parent, elems, n - 1) + [FixedElem(h, child, parent, elems[n - 1])]
  }

  /** fixThisCastsForPulledUpMethod: a method without a body is left alone. */
  function FixThisCasts(h: Hierarchy, m: Method, child: nat, parent: nat): Method
    requires Acyclic(h) && child < |h|
  {
    if m.body.None? then m
    else m.(body := Some(m.body.value.(elems := FixedElems(h, child, parent, m.body.value.elems, |m.body.value.elems|))))
  }

  method FixThisCastsForPulledUpMethod(h: Hierarchy, m: Method, child: nat, parent: nat) returns (fixed: Method)
    requires Acyclic(h) && child < |h|
    ensures fixed == FixThisCasts(h, m, child, parent)
  {
    if m.body.None? {
      return m;
    }
    var elems := m.body.value.elems;
    var visited: seq<Elem> := [];
    for i := 0 to |elems|
      invariant visited == FixedElems(h, child, parent, elems, i)
    {
      var e := elems[i];
      if e.Call? {
        var args := TryFixArguments(h, child, parent, e.paramTypes, e.args);
        e := e.(args := args);
      }
      visited := visited + [e];
    }
    fixed := m.(body := Some(m.body.value.(elems := visited)));
  }

  // ------------------------------------------------------ properties

  /**
   * An argument is replaced exactly when the lengths match, it is `this`, and
   * its parameter type accepts the origin but not the destination; the
   * replacement is the cast snippet.
   */
  lemma FixedArgsIff(h: Hierarchy, child: nat, parent: nat, args: seq<Arg>, paramTypes: seq<Type>, i: nat)
    requires Acyclic(h) && child < |h| && i < |args|
    ensures var r := FixedArgs(h, child, parent, args, paramTypes);
            && (r[i] != args[i] <==> |paramTypes| == |args| && args[i].ThisAccess? && NeedsCast(h, child, parent, paramTypes[i]))
            && (r[i] != args[i] ==> r[i] == Expr(CastText(h, child)))
  {
  }

  /**
   * Only call arguments change: the method keeps its name, parameters, return
   * type, modifiers, annotations, thrown types and the presence of its body,
   * and each body element keeps its kind and everything but its arguments.
   */
  lemma FixKeepsShape(h: Hierarchy, m: Method, child: nat, parent: nat)
    requires Acyclic(h) && child < |h|
    ensures var f := FixThisCasts(h, m, child, parent);
            && f.name == m.name && f.params == m.params && f.returnType == m.returnType
            && f.modifiers == m.modifiers && f.annotations == m.annotations && f.thrown == m.thrown
            && (f.body.Some? <==> m.body.Some?)
            && (m.body.Some? ==>
                  && f.body.value.text == m.body.value.text
                  && |f.body.value.elems| == |m.body.value.elems|
                  && forall i :: 0 <= i < |m.body.value.elems| ==>
                       var e := m.body.value.elems[i];
                       var g := f.body.value.elems[i];
                       if e.Call? then g.Call? && g == e.(args := g.args) && |g.args| == |e.args| else g == e)
  {
  }

  /** Fixing twice is fixing once: a replaced argument is no longer `this`. */
  lemma FixIdempotent(h: Hierarchy, m: Method, child: nat, parent: nat)
    requires Acyclic(h) && child < |h|
    ensures FixThisCasts(h, FixThisCasts(h, m, child, parent), child, parent) == FixThisCasts(h, m, child, parent)
  {
    if m.body.Some? {
      var elems := m.body.value.elems;
      var once := FixedElems(h, child, parent, elems, |elems|);
      var twice := FixedElems(h, child, parent, once, |once|);
      forall i | 0 <= i < |elems| ensures twice[i] == once[i] {
        var e := elems[i];
        if e.Call? {
          var a1 := FixedArgs(h, child, parent, e.args, e.paramTypes);
          var a2 := FixedArgs(h, child, parent, a1, e.paramTypes);
          forall j | 0 <= j < |a1| ensures a2[j] == a1[j] {
            FixedArgsIff(h, child, parent, e.args, e.paramTypes, j);
            FixedArgsIff(h, child, parent, a1, e.paramTypes, j);
          }
          assert a2 == a1;
        }
      }
      assert twice == once;
    }
  }

  /** An argument passed for a parameter typed as the destination or one of its ancestors never gets the cast. */
  lemma NoCastForDestinationTypes(h: Hierarchy, child: nat, parent: nat, a: nat)
    requires Acyclic(h) && IsClass(h, a)
    requires a == parent || IsStrictAncestor(h, a, parent)
    ensures !NeedsCast(h, child, parent, ClassType(a))
  {
    if a != parent {
      SuperclassRefsAncestors(h, parent, a);
      SuperclassRefsReached(h, parent, ClassType(a));
    }
  }

  // ------------------------------------------------------ the Util.use example

  /** BaseH, ChildH extending it, and Util. */
  function UtilHierarchy(): Hierarchy {
    [Header("test.BaseH", "BaseH", false, Absent, [], None),
     Header("test.ChildH", "ChildH", false, ClassType(0), [], None),
     Header("test.Util", "Util", false, Absent, [], None)]
  }

  /** `return test.Util.use(this, 1);` as a call element. */
  function UseCall(args: seq<Arg>): Elem {
    Call(MethodCall, ClassType(2), "use", [ClassType(1), Primitive("int")], OtherTarget, args)
  }

  lemma UtilFacts(h: Hierarchy)
    requires h == UtilHierarchy()
    ensures Acyclic(h)
    ensures !SubtypeOrSame(h, ClassType(0), ClassType(1))
  {
    SuperclassesFirstAcyclic(h);
    assert DirectSupertypes(h, ClassType(0)) == [];
  }

  /**
   * ChildH.work() calls Util.use(ChildH, int) with `this`; pulled up to BaseH,
   * the argument becomes `(test.ChildH) this` and the `1` stays.
   */
  lemma UtilUseGetsCast(h: Hierarchy)
    requires h == UtilHierarchy()
    ensures Acyclic(h)
    ensures FixedElem(h, 1, 0, UseCall([ThisAccess, Expr("1")])) == UseCall([Expr("(" + "test.ChildH" + ") this"), Expr("1")])
  {
    UtilFacts(h);
    assert NeedsCast(h, 1, 0, ClassType(1));
    assert !NeedsCast(h, 1, 0, Primitive("int"));
    var r := FixedArgs(h, 1, 0, [ThisAccess, Expr("1")], [ClassType(1), Primitive("int")]);
    assert r[0] == Expr(CastText(h, 1)) && r[1] == Expr("1");
    assert r == [Expr(CastText(h, 1)), Expr("1")];
  }

  // ------------------------------------------------------ an interface parameter

  /**
   * Listener, an interface; Base, the destination, implementing Listener when
   * `baseImplements` holds; Impl extending Base and implementing Listener; Bus.
   */
  function ListenerHierarchy(baseImplements: bool): Hierarchy {
    [Header("test.Listener", "Listener", true, Absent, [], None),
     Header("test.Base", "Base", false, Absent, if baseImplements then [ClassType(0)] else [], None),
     Header("test.Impl", "Impl", false, ClassType(1), [ClassType(0)], None),
     Header("test.Bus", "Bus", false, Absent, [], None)]
  }

  /** `bus.register(this)`, a call of Bus.register(Listener). */
  function RegisterCall(args: seq<Arg>): Elem {
    Call(MethodCall, ClassType(3), "register", [ClassType(0)], OtherTarget, args)
  }

  lemma ListenerFacts(h: Hierarchy, baseImplements: bool)
    requires h == ListenerHierarchy(baseImplements)
    ensures Acyclic(h)
    ensures SubtypeOrSame(h, ClassType(2), ClassType(0))
    ensures SubtypeOrSame(h, ClassType(1), ClassType(0)) <==> baseImplements
  {
    SuperclassesFirstAcyclic(h);
    assert DirectSupertypes(h, ClassType(2)) == [ClassType(1), ClassType(0)];
    SupertypeReached(h, ClassType(2), ClassType(0));
    if baseImplements {
      assert DirectSupertypes(h, ClassType(1)) == [ClassType(0)];
      SupertypeReached(h, ClassType(1), ClassType(0));
    } else {
      assert DirectSupertypes(h, ClassType(1)) == [];
    }
  }

  /**
   * Impl passes `this` to register(Listener). Pulled up to a Base that does
   * not implement Listener, the argument becomes `(test.Impl) this`; pulled
   * up to a Base that does, it stays `this`.
   */
  lemma InterfaceParameterCast(h: Hierarchy, baseImplements: bool)
    requires h == ListenerHierarchy(baseImplements)
    ensures Acyclic(h)
    ensures FixedElem(h, 2, 1, RegisterCall([ThisAccess]))
            == RegisterCall([if baseImplements then ThisAccess else Expr("(" + "test.Impl" + ") this")])
  {
    ListenerFacts(h, baseImplements);
    assert NeedsCast(h, 2, 1, ClassType(0)) <==> !baseImplements;
    var r := FixedArgs(h, 2, 1, [ThisAccess], [ClassType(0)]);
    assert r == [FixedArg(h, 2, 1, ThisAccess, ClassType(0))];
  }
}
