/**
 * The super-call repair of a method pull-up. Once a method of the origin is
 * declared abstract in the destination, a `super.m(...)` call in the origin
 * targets that abstract declaration. Each such call is settled either by
 * giving the destination's declaration a body that forwards to a concrete
 * implementation further up the chain, or, when there is none, by taking the
 * call out.
 */
module SuperCallHandler {
  import opened Common
  import opened JavaModel

  datatype SuperCallHandlingResult = SuperCallHandlingResult(success: bool, message: string, handledCalls: seq<string>, warnings: seq<string>)

  /** A collected call: its position among the body's references, the name it invokes and its number of arguments. */
  datatype SuperCallInfo = SuperCallInfo(index: nat, methodName: string, arity: nat)

  function MethodNames(ms: seq<Method>): (r: seq<string>)
    ensures |r| == |ms| && forall i :: 0 <= i < |ms| ==> r[i] == ms[i].name
  {
    if ms == [] then [] else [ms[0].name] + MethodNames(ms[1..])
  }

  // ------------------------------------------------------ collecting

  /** A method invocation whose target is `super` and whose name is one of `names`. */
  predicate IsSuperCallTo(e: Elem, names: seq<string>) {
    e.Call? && e.kind == MethodCall && e.target == SuperTarget && e.name in names
  }

  /** The super calls among the first `n` references, in scan order. */
  function SuperCalls(elems: seq<Elem>, names: seq<string>, n: nat): (r: seq<SuperCallInfo>)
    requires n <= |elems|
    ensures forall j :: 0 <= j < |r| ==> r[j].index < n && IsSuperCallTo(elems[r[j].index], names)
                                          && r[j].methodName == elems[r[j].index].name
                                          && r[j].arity == |elems[r[j].index].args|
    ensures forall j, k :: 0 <= j < k < |r| ==> r[j].index < r[k].index
  {
    if n == 0 then []
    else
      var prev := SuperCalls(elems, names, n - 1);
      var e := elems[n - 1];
      if IsSuperCallTo(e, names) then prev + [SuperCallInfo(n - 1, e.name, |e.args|)] else prev
  }

  /** collectSuperCalls: the scan over the body, keeping each super call to one of the abstracted names. */
  method CollectSuperCalls(m: Method, abstractMethods: seq<Method>) returns (superCalls: seq<SuperCallInfo>)
    ensures superCalls == SuperCalls(BodyElems(m), MethodNames(abstractMethods), |BodyElems(m)|)
  {
    var abstractMethodNames := MethodNames(abstractMethods);
    var elems := BodyElems(m);
    superCalls := [];
    for i := 0 to |elems|
      invariant superCalls == SuperCalls(elems, abstractMethodNames, i)
    {
      var e := elems[i];
      if e.Call? && e.kind == MethodCall && e.target == SuperTarget && e.name in abstractMethodNames {
        superCalls := superCalls + [SuperCallInfo(i, e.name, |e.args|)];
      }
    }
  }

  // ------------------------------------------------------ the search up the chain

  /** A method `findConcreteMethodInAncestors` accepts: the name, not abstract, and as many parameters as the call has arguments. */
  predicate IsConcreteMatch(m: Method, name: string, arity: nat) {
    m.name == name && Abstract !in m.modifiers && |m.params| == arity
  }

  /** A method `findMethodInClass` accepts: the name and the arity, abstract or not. */
  predicate IsArityMatch(m: Method, name: string, arity: nat) {
    m.name == name && |m.params| == arity
  }

  /** The first concrete match at or after `from`. */
  function ConcreteIndex(methods: seq<Method>, name: string, arity: nat, from: nat): (r: Option<nat>)
    ensures r.Some? ==> from <= r.value < |methods| && IsConcreteMatch(methods[r.value], name, arity)
                        && forall j :: from <= j < r.value ==> !IsConcreteMatch(methods[j], name, arity)
    ensures r.None? ==> forall j :: from <= j < |methods| ==> !IsConcreteMatch(methods[j], name, arity)
    decreases |methods| - from
  {
    if from >= |methods| then None
    else if IsConcreteMatch(methods[from], name, arity) then Some(from)
    else ConcreteIndex(methods, name, arity, from + 1)
  }

  /** The first arity match at or after `from`. */
  function ArityIndex(methods: seq<Method>, name: string, arity: nat, from: nat): (r: Option<nat>)
    ensures r.Some? ==> from <= r.value < |methods| && IsArityMatch(methods[r.value], name, arity)
                        && forall j :: from <= j < r.value ==> !IsArityMatch(methods[j], name, arity)
    ensures r.None? ==> forall j :: from <= j < |methods| ==> !IsArityMatch(methods[j], name, arity)
    decreases |methods| - from
  {
    if from >= |methods| then None
    else if IsArityMatch(methods[from], name, arity) then Some(from)
    else ArityIndex(methods, name, arity, from + 1)
  }

  /** Walking up from class `c`, itself included: the first concrete match of the first class that has one. */
  function ConcreteFrom(h: Hierarchy, s: State, c: nat, name: string, arity: nat): Option<Method>
    requires Acyclic(h) && |s| == |h| && c < |h|
    decreases Depth(h, c)
  {
    match ConcreteIndex(s[c].methods, name, arity, 0)
    case Some(k) => Some(s[c].methods[k])
    case None =>
      match Parent(h, c)
      case None => None
      case Some(p) => ParentDepth(h, c); ConcreteFrom(h, s, p, name, arity)
  }

  /** findConcreteMethodInAncestors: the walk starts at the destination's superclass, so the destination itself is skipped. */
  function ConcreteInAncestors(h: Hierarchy, s: State, parent: nat, name: string, arity: nat): Option<Method>
    requires Acyclic(h) && |s| == |h|
  {
    match Parent(h, parent)
    case None => None
    case Some(g) => ConcreteFrom(h, s, g, name, arity)
  }

  /** The inner loop of the search: the first concrete match among one class's methods. */
  method FindConcreteIndex(methods: seq<Method>, name: string, arity: nat) returns (r: Option<nat>)
    ensures r == ConcreteIndex(methods, name, arity, 0)
  {
    for i := 0 to |methods|
      invariant ConcreteIndex(methods, name, arity, i) == ConcreteIndex(methods, name, arity, 0)
    {
      var method_ := methods[i];
      if method_.name == name && !(Abstract in method_.modifiers) && |method_.params| == arity {
        return Some(i);
      }
    }
    return None;
  }

  method FindConcreteMethodInAncestors(h: Hierarchy, s: State, name: string, parent: nat, arity: nat) returns (r: Option<Method>)
    requires Acyclic(h) && |s| == |h|
    ensures r == ConcreteInAncestors(h, s, parent, name, arity)
  {
    var superClass := Parent(h, parent);
    if superClass.None? {
      return None;
    }
    var currentClass: nat := superClass.value;
    while true
      invariant currentClass < |h|
      invariant ConcreteFrom(h, s, currentClass, name, arity) == ConcreteInAncestors(h, s, parent, name, arity)
      decreases Depth(h, currentClass)
    {
      var k := FindConcreteIndex(s[currentClass].methods, name, arity);
      if k.Some? {
        return Some(s[currentClass].methods[k.value]);
      }
      var next := Parent(h, currentClass);
      if next.None? {
        return None;
      }
      ParentDepth(h, currentClass);
      currentClass := next.value;
    }
  }

  /** findMethodInClass: the first method with the call's name and arity. */
  method FindMethodInClass(methods: seq<Method>, name: string, arity: nat) returns (r: Option<nat>)
    ensures r == ArityIndex(methods, name, arity, 0)
  {
    for i := 0 to |methods|
      invariant ArityIndex(methods, name, arity, i) == ArityIndex(methods, name, arity, 0)
    {
      if methods[i].name == name && |methods[i].params| == arity {
        return Some(i);
      }
    }
    return None;
  }

  // ------------------------------------------------------ the default implementation

  /** The forwarding snippet: `{ return super.m(a, b); }`, or `{ super.m(a, b); }` for a void method. */
  function ForwardingText(name: string, paramNames: seq<string>, isVoid: bool): string {
    (if isVoid then "{ super." else "{ return super.") + name + "(" + Join(paramNames, ", ") + "); }"
  }

  function TodoComment(name: string): string {
    "// TODO: 手动添加 super." + name + "() 调用"
  }

  /**
   * createDefaultMethodBody: the forwarding snippet, which Spoon keeps as
   * text with no references in it. A missing return type makes the void test
   * throw, and the fallback is a block holding the TODO comment (its text is
   * the comment).
   */
  function DefaultBody(m: Method, ancestorName: string): Body {
    if m.returnType == Absent then Body(TodoComment(ancestorName), [Comment(TodoComment(ancestorName))])
    else Body(ForwardingText(ancestorName, ParamNames(m.params), m.returnType == Void), [])
  }

  /** The class has a method carrying the abstract modifier. */
  predicate HasAbstractMethod(c: Members) {
    exists k :: 0 <= k < |c.methods| && Abstract in c.methods[k].modifiers
  }

  /** updateParentClassAbstractStatus: the abstract flag goes when no method of the class is abstract; it is never set. */
  function AbstractStatusUpdated(s: State, c: nat): (r: State)
    requires c < |s|
    ensures |r| == |s| && r[c].methods == s[c].methods && r[c].fields == s[c].fields
    ensures r[c].isAbstract <==> s[c].isAbstract && HasAbstractMethod(s[c])
    ensures forall d :: 0 <= d < |s| && d != c ==> r[d] == s[d]
  {
    if !HasAbstractMethod(s[c]) && s[c].isAbstract then s[c := s[c].(isAbstract := false)] else s
  }

  method UpdateParentClassAbstractStatus(w: Workspace, c: nat)
    requires w.Valid() && c < |w.members|
    modifies w
    ensures w.Valid()
    ensures w.members == AbstractStatusUpdated(old(w.members), c)
  {
    var hasAbstractMethods := exists k :: 0 <= k < |w.members[c].methods| && Abstract in w.members[c].methods[k].modifiers;
    if !hasAbstractMethods && w.members[c].isAbstract {
      w.members := w.members[c := w.members[c].(isAbstract := false)];
    }
  }

  /**
   * createDefaultImplementationInParent: the destination's first method with
   * the call's name and arity loses abstract and gets the default body; false
   * when there is no such method.
   */
  function DefaultImplemented(s: State, parent: nat, info: SuperCallInfo, ancestor: Method): (r: (State, bool))
    requires parent < |s|
    ensures SameShape(s, r.0)
  {
    match ArityIndex(s[parent].methods, info.methodName, info.arity, 0)
    case None => (s, false)
    case Some(k) =>
      var m := s[parent].methods[k];
      var concrete := m.(modifiers := m.modifiers - {Abstract}, body := Some(DefaultBody(m, ancestor.name)));
      (AbstractStatusUpdated(SetMethod(s, Pos(parent, k), concrete), parent), true)
  }

  method CreateDefaultImplementationInParent(w: Workspace, info: SuperCallInfo, ancestor: Method, parent: nat) returns (created: bool)
    requires w.Valid() && parent < |w.members|
    modifies w
    ensures w.Valid()
    ensures (w.members, created) == DefaultImplemented(old(w.members), parent, info, ancestor)
  {
    var k := FindMethodInClass(w.members[parent].methods, info.methodName, info.arity);
    if k.None? {
      return false;
    }
    var abstractMethodInParent := w.members[parent].methods[k.value];
    abstractMethodInParent := abstractMethodInParent.(modifiers := abstractMethodInParent.modifiers - {Abstract});
    var methodBody := DefaultBody(abstractMethodInParent, ancestor.name);
    w.members := SetMethod(w.members, Pos(parent, k.value), abstractMethodInParent.(body := Some(methodBody)));
    UpdateParentClassAbstractStatus(w, parent);
    return true;
  }

  // ------------------------------------------------------ removing a call

  function RemovalComment(name: string): string {
    "// 原 super." + name + "() 调用已移除，因为方法已上提为抽象方法"
  }

  /**
   * removeSuperCall as written: the comment is attached to the invocation,
   * which is then deleted together with everything attached to it.
   */
  function CallDeleted(m: Method, i: nat): Method {
    if m.body.Some? && i < |m.body.value.elems| then
      m.(body := Some(m.body.value.(elems := m.body.value.elems[..i] + m.body.value.elems[i + 1..])))
    else m
  }

  /** removeSuperCall as intended: the invocation makes way for the comment that explains its removal. */
  function CallReplacedByComment(m: Method, i: nat, name: string): Method {
    if m.body.Some? && i < |m.body.value.elems| then
      m.(body := Some(m.body.value.(elems := m.body.value.elems[i := Comment(RemovalComment(name))])))
    else m
  }

  method RemoveSuperCall(w: Workspace, info: SuperCallInfo, p: Pos) returns (removed: bool)
    requires w.Valid() && ValidPos(w.members, p)
    modifies w
    ensures w.Valid()
    ensures w.members == SetMethod(old(w.members), p, CallReplacedByComment(MethodAt(old(w.members), p), info.index, info.methodName))
    ensures removed
  {
    var m := MethodAt(w.members, p);
    if m.body.Some? && info.index < |m.body.value.elems| {
      var comment := RemovalComment(info.methodName);
      m := m.(body := Some(m.body.value.(elems := m.body.value.elems[info.index := Comment(comment)])));
    }
    w.members := SetMethod(w.members, p, m);
    return true;
  }

  // ------------------------------------------------------ the whole step

  /** handleSingleSuperCall: a concrete method above the destination means a default implementation, none means removal. */
  function CallHandled(h: Hierarchy, s: State, parent: nat, p: Pos, info: SuperCallInfo): (r: (State, bool))
    requires Acyclic(h) && |s| == |h| && parent < |s| && ValidPos(s, p)
    ensures SameShape(s, r.0)
  {
    match ConcreteInAncestors(h, s, parent, info.methodName, info.arity)
    case Some(ancestor) => DefaultImplemented(s, parent, info, ancestor)
    case None => (SetMethod(s, p, CallReplacedByComment(MethodAt(s, p), info.index, info.methodName)), true)
  }

  method HandleSingleSuperCall(w: Workspace, info: SuperCallInfo, parent: nat, p: Pos) returns (handled: bool)
    requires w.Valid() && parent < |w.members| && ValidPos(w.members, p)
    modifies w
    ensures w.Valid()
    ensures (w.members, handled) == CallHandled(w.types, old(w.members), parent, p, info)
  {
    var ancestorMethod := FindConcreteMethodInAncestors(w.types, w.members, info.methodName, parent, info.arity);
    if ancestorMethod.Some? {
      handled := CreateDefaultImplementationInParent(w, info, ancestorMethod.value, parent);
    } else {
      handled := RemoveSuperCall(w, info, p);
    }
  }

  function UnhandledWarning(name: string): string {
    "无法处理super调用: " + name
  }

  /** The first `n` calls handled one after the other: the state, the handled names and the warnings. */
  function CallsHandled(h: Hierarchy, s: State, parent: nat, p: Pos, calls: seq<SuperCallInfo>, n: nat)
    : (r: (State, seq<string>, seq<string>))
    requires Acyclic(h) && |s| == |h| && parent < |s| && ValidPos(s, p) && n <= |calls|
    ensures SameShape(s, r.0) && |r.1| + |r.2| == n
  {
    if n == 0 then (s, [], [])
    else
      var prev := CallsHandled(h, s, parent, p, calls, n - 1);
      var step := CallHandled(h, prev.0, parent, p, calls[n - 1]);
      if step.1 then (step.0, prev.1 + [calls[n - 1].methodName], prev.2)
      else (step.0, prev.1, prev.2 + [UnhandledWarning(calls[n - 1].methodName)])
  }

  function HandledMessage(n: nat): string {
    "成功处理 " + NatText(n) + " 个super调用"
  }

  /** handleSuperCalls on the method at `p`: no super call to an abstracted name means success and no change. */
  function SuperCallHandling(h: Hierarchy, s: State, p: Pos, abstractMethods: seq<Method>, parent: nat)
    : (r: (State, SuperCallHandlingResult))
    requires Acyclic(h) && |s| == |h| && parent < |s| && ValidPos(s, p)
    ensures SameShape(s, r.0)
  {
    var elems := BodyElems(MethodAt(s, p));
    var calls := SuperCalls(elems, MethodNames(abstractMethods), |elems|);
    if calls == [] then (s, SuperCallHandlingResult(true, "方法中无需要处理的super调用", [], []))
    else
      var done := CallsHandled(h, s, parent, p, calls, |calls|);
      (done.0, SuperCallHandlingResult(true, HandledMessage(|done.1|), done.1, done.2))
  }

  method HandleSuperCalls(w: Workspace, p: Pos, abstractMethods: seq<Method>, parent: nat) returns (result: SuperCallHandlingResult)
    requires w.Valid() && parent < |w.members| && ValidPos(w.members, p)
    modifies w
    ensures w.Valid()
    ensures (w.members, result) == SuperCallHandling(w.types, old(w.members), p, abstractMethods, parent)
  {
    var superCalls := CollectSuperCalls(MethodAt(w.members, p), abstractMethods);
    if superCalls == [] {
      return SuperCallHandlingResult(true, "方法中无需要处理的super调用", [], []);
    }
    var handledCalls: seq<string> := [];
    var warnings: seq<string> := [];
    ghost var s0 := w.members;
    for i := 0 to |superCalls|
      invariant w.Valid() && SameShape(s0, w.members)
      invariant (w.members, handledCalls, warnings) == CallsHandled(w.types, s0, parent, p, superCalls, i)
    {
      var callInfo := superCalls[i];
      var handled := HandleSingleSuperCall(w, callInfo, parent, p);
      if handled {
        handledCalls := handledCalls + [callInfo.methodName];
      } else {
        warnings := warnings + [UnhandledWarning(callInfo.methodName)];
      }
    }
    result := SuperCallHandlingResult(true, HandledMessage(|handledCalls|), handledCalls, warnings);
  }

  // ------------------------------------------------------ properties

  /** Every super call to an abstracted name among the first `n` references is collected. */
  lemma {:induction false} SuperCallsComplete(elems: seq<Elem>, names: seq<string>, n: nat, i: nat)
    requires n <= |elems| && i < n && IsSuperCallTo(elems[i], names)
    ensures exists j :: 0 <= j < |SuperCalls(elems, names, n)| && SuperCalls(elems, names, n)[j].index == i
  {
    var prev := SuperCalls(elems, names, n - 1);
    if i < n - 1 {
      SuperCallsComplete(elems, names, n - 1, i);
      var j :| 0 <= j < |prev| && prev[j].index == i;
      assert SuperCalls(elems, names, n)[j] == prev[j];
    } else {
      assert SuperCalls(elems, names, n)[|prev|].index == i;
    }
  }

  /** The reference definition of the search: the first class of `cs`, in order, with a concrete match provides it. */
  function FirstConcrete(s: State, cs: seq<nat>, name: string, arity: nat): Option<Method>
    requires forall i :: 0 <= i < |cs| ==> cs[i] < |s|
  {
    if cs == [] then None
    else match ConcreteIndex(s[cs[0]].methods, name, arity, 0)
      case Some(k) => Some(s[cs[0]].methods[k])
      case None => FirstConcrete(s, cs[1..], name, arity)
  }

  lemma {:induction false} ConcreteFromChain(h: Hierarchy, s: State, c: nat, name: string, arity: nat)
    requires Acyclic(h) && |s| == |h| && c < |h|
    ensures ConcreteFrom(h, s, c, name, arity) == FirstConcrete(s, [c] + Ancestors(h, c), name, arity)
    decreases Depth(h, c)
  {
    var cs := [c] + Ancestors(h, c);
    assert cs[1..] == Ancestors(h, c);
    if ConcreteIndex(s[c].methods, name, arity, 0).None? {
      match Parent(h, c)
      case None =>
      case Some(p) =>
        ParentDepth(h, c);
        ConcreteFromChain(h, s, p, name, arity);
        assert Ancestors(h, c) == [p] + Ancestors(h, p);
    }
  }

  /**
   * findConcreteMethodInAncestors returns the first concrete match of the
   * nearest strict ancestor of the destination that has one.
   */
  lemma ConcreteInAncestorsIsNearest(h: Hierarchy, s: State, parent: nat, name: string, arity: nat)
    requires Acyclic(h) && |s| == |h|
    ensures ConcreteInAncestors(h, s, parent, name, arity) == FirstConcrete(s, Ancestors(h, parent), name, arity)
  {
    match Parent(h, parent)
    case None =>
    case Some(g) =>
      ParentDepth(h, parent);
      ConcreteFromChain(h, s, g, name, arity);
  }

  /** What FirstConcrete finds: a concrete match in some class of `cs`, all earlier classes having none; none at all otherwise. */
  lemma {:induction false} FirstConcreteMeaning(s: State, cs: seq<nat>, name: string, arity: nat)
    requires forall i :: 0 <= i < |cs| ==> cs[i] < |s|
    ensures var r := FirstConcrete(s, cs, name, arity);
            && (r.None? <==> forall i :: 0 <= i < |cs| ==> ConcreteIndex(s[cs[i]].methods, name, arity, 0).None?)
            && (r.Some? ==> IsConcreteMatch(r.value, name, arity)
                            && exists i :: 0 <= i < |cs| && r.value in s[cs[i]].methods
                                           && forall j :: 0 <= j < i ==> ConcreteIndex(s[cs[j]].methods, name, arity, 0).None?)
  {
    if cs != [] {
      FirstConcreteMeaning(s, cs[1..], name, arity);
      if ConcreteIndex(s[cs[0]].methods, name, arity, 0).None? {
        var r := FirstConcrete(s, cs, name, arity);
        if r.Some? {
          var i :| 0 <= i < |cs[1..]| && r.value in s[cs[1..][i]].methods
                   && forall j :: 0 <= j < i ==> ConcreteIndex(s[cs[1..][j]].methods, name, arity, 0).None?;
          assert r.value in s[cs[i + 1]].methods;
          assert forall j :: 0 <= j < i + 1 ==> ConcreteIndex(s[cs[j]].methods, name, arity, 0).None? by {
            forall j | 0 <= j < i + 1 ensures ConcreteIndex(s[cs[j]].methods, name, arity, 0).None? {
              if j > 0 { assert cs[j] == cs[1..][j - 1]; }
            }
          }
        } else {
          forall i | 0 <= i < |cs| ensures ConcreteIndex(s[cs[i]].methods, name, arity, 0).None? {
            if i > 0 { assert cs[i] == cs[1..][i - 1]; }
          }
        }
      }
    }
  }

  lemma {:induction false} FirstConcreteFrame(s: State, cs: seq<nat>, name: string, arity: nat, x: nat, m: Members)
    requires x < |s| && forall i :: 0 <= i < |cs| ==> cs[i] < |s| && cs[i] != x
    ensures FirstConcrete(s[x := m], cs, name, arity) == FirstConcrete(s, cs, name, arity)
  {
    if cs != [] {
      FirstConcreteFrame(s, cs[1..], name, arity, x, m);
    }
  }

  /** The destination's own methods never take part in the search: it starts above the destination. */
  lemma DestinationNotSearched(h: Hierarchy, s: State, parent: nat, m: Members, name: string, arity: nat)
    requires Acyclic(h) && |s| == |h| && parent < |s|
    ensures ConcreteInAncestors(h, s[parent := m], parent, name, arity) == ConcreteInAncestors(h, s, parent, name, arity)
  {
    ConcreteInAncestorsIsNearest(h, s, parent, name, arity);
    ConcreteInAncestorsIsNearest(h, s[parent := m], parent, name, arity);
    NotOwnAncestor(h, parent);
    FirstConcreteFrame(s, Ancestors(h, parent), name, arity, parent, m);
  }

  /** A state where no class declaring an abstract method is missing the abstract flag. */
  predicate AbstractFlagsConsistent(s: State) {
    forall c :: 0 <= c < |s| && HasAbstractMethod(s[c]) ==> s[c].isAbstract
  }

  /** What the super-call repair never changes about a method. */
  datatype Signature = Signature(name: string, params: seq<Param>, returnType: Type)

  function Signatures(c: Members): seq<Signature>
  {
    seq(|c.methods|, k requires 0 <= k < |c.methods| => Signature(c.methods[k].name, c.methods[k].params, c.methods[k].returnType))
  }

  /** Two states with the same methods, one for one, up to modifiers and bodies, and the same fields. */
  predicate KeepsSignatures(s: State, t: State) {
    |s| == |t| && forall c :: 0 <= c < |s| ==> Signatures(t[c]) == Signatures(s[c]) && t[c].fields == s[c].fields
  }

  /**
   * The default implementation in the destination: the declaration with the
   * call's name and arity loses abstract and forwards to the ancestor, and the
   * destination stays abstract exactly while one of its methods is.
   */
  lemma DefaultImplementedMeaning(s: State, parent: nat, info: SuperCallInfo, ancestor: Method)
    requires parent < |s|
    ensures var (r, created) := DefaultImplemented(s, parent, info, ancestor);
            && KeepsSignatures(s, r)
            && (created <==> exists k :: 0 <= k < |s[parent].methods| && IsArityMatch(s[parent].methods[k], info.methodName, info.arity))
            && (!created ==> r == s)
            && (created ==> var k := ArityIndex(s[parent].methods, info.methodName, info.arity, 0).value;
                  && Abstract !in r[parent].methods[k].modifiers
                  && r[parent].methods[k].modifiers == s[parent].methods[k].modifiers - {Abstract}
                  && r[parent].methods[k].body == Some(DefaultBody(s[parent].methods[k], ancestor.name))
                  && (r[parent].isAbstract <==> s[parent].isAbstract && HasAbstractMethod(r[parent]))
                  && (forall j :: 0 <= j < |s[parent].methods| && j != k ==> r[parent].methods[j] == s[parent].methods[j])
                  && forall c :: 0 <= c < |s| && c != parent ==> r[c] == s[c])
  {
  }

  /** Handling a call keeps every signature, and never leaves an abstract method in a class without the flag. */
  lemma CallHandledKeeps(h: Hierarchy, s: State, parent: nat, p: Pos, info: SuperCallInfo)
    requires Acyclic(h) && |s| == |h| && parent < |s| && ValidPos(s, p)
    ensures KeepsSignatures(s, CallHandled(h, s, parent, p, info).0)
    ensures AbstractFlagsConsistent(s) ==> AbstractFlagsConsistent(CallHandled(h, s, parent, p, info).0)
  {
    var r := CallHandled(h, s, parent, p, info).0;
    match ConcreteInAncestors(h, s, parent, info.methodName, info.arity)
    case Some(ancestor) =>
      DefaultImplementedMeaning(s, parent, info, ancestor);
      if AbstractFlagsConsistent(s) && ArityIndex(s[parent].methods, info.methodName, info.arity, 0).Some? {
        var k := ArityIndex(s[parent].methods, info.methodName, info.arity, 0).value;
        forall c | 0 <= c < |r| && HasAbstractMethod(r[c]) ensures r[c].isAbstract {
          if c != parent {
            assert r[c] == s[c];
          } else {
            var j :| 0 <= j < |r[c].methods| && Abstract in r[c].methods[j].modifiers;
            assert j != k;
            assert HasAbstractMethod(s[c]);
          }
        }
      }
    case None =>
      forall c | 0 <= c < |r| && HasAbstractMethod(r[c]) ensures HasAbstractMethod(s[c]) {
        var j :| 0 <= j < |r[c].methods| && Abstract in r[c].methods[j].modifiers;
        assert Abstract in s[c].methods[j].modifiers;
      }
  }

  /** The same two facts for any number of calls. */
  lemma {:induction false} CallsHandledKeep(h: Hierarchy, s: State, parent: nat, p: Pos, calls: seq<SuperCallInfo>, n: nat)
    requires Acyclic(h) && |s| == |h| && parent < |s| && ValidPos(s, p) && n <= |calls|
    ensures KeepsSignatures(s, CallsHandled(h, s, parent, p, calls, n).0)
    ensures AbstractFlagsConsistent(s) ==> AbstractFlagsConsistent(CallsHandled(h, s, parent, p, calls, n).0)
  {
    if n > 0 {
      CallsHandledKeep(h, s, parent, p, calls, n - 1);
      KeptThroughCallAt(h, s, parent, p, calls, n);
    }
  }

  /** The step of the induction: what the first `n - 1` calls kept, the `n`-th call keeps too. */
  lemma KeptThroughCallAt(h: Hierarchy, s: State, parent: nat, p: Pos, calls: seq<SuperCallInfo>, n: nat)
    requires Acyclic(h) && |s| == |h| && parent < |s| && ValidPos(s, p) && 0 < n <= |calls|
    requires KeepsSignatures(s, CallsHandled(h, s, parent, p, calls, n - 1).0)
    requires AbstractFlagsConsistent(s) ==> AbstractFlagsConsistent(CallsHandled(h, s, parent, p, calls, n - 1).0)
    ensures KeepsSignatures(s, CallsHandled(h, s, parent, p, calls, n).0)
    ensures AbstractFlagsConsistent(s) ==> AbstractFlagsConsistent(CallsHandled(h, s, parent, p, calls, n).0)
  {
    var prev := CallsHandled(h, s, parent, p, calls, n - 1).0;
    KeptThroughCall(h, s, prev, parent, p, calls[n - 1]);
    assert CallsHandled(h, s, parent, p, calls, n).0 == CallHandled(h, prev, parent, p, calls[n - 1]).0;
  }

  /** One more call handled after states that kept the signatures and the flags keeps them still. */
  lemma KeptThroughCall(h: Hierarchy, s: State, prev: State, parent: nat, p: Pos, info: SuperCallInfo)
    requires Acyclic(h) && |s| == |h| && parent < |s| && ValidPos(s, p)
    requires KeepsSignatures(s, prev) && SameShape(s, prev)
    requires AbstractFlagsConsistent(s) ==> AbstractFlagsConsistent(prev)
    ensures ValidPos(prev, p)
    ensures KeepsSignatures(s, CallHandled(h, prev, parent, p, info).0)
    ensures AbstractFlagsConsistent(s) ==> AbstractFlagsConsistent(CallHandled(h, prev, parent, p, info).0)
  {
    assert |prev[p.cls].methods| == |s[p.cls].methods|;
    CallHandledKeeps(h, prev, parent, p, info);
  }

  /**
   * A call is left unhandled only when there is a concrete implementation
   * above the destination and the destination has no method with the call's
   * name and arity; a call with nothing concrete above is always removed.
   */
  lemma CallUnhandledIff(h: Hierarchy, s: State, parent: nat, p: Pos, info: SuperCallInfo)
    requires Acyclic(h) && |s| == |h| && parent < |s| && ValidPos(s, p)
    ensures !CallHandled(h, s, parent, p, info).1 <==>
              ConcreteInAncestors(h, s, parent, info.methodName, info.arity).Some?
              && forall k :: 0 <= k < |s[parent].methods| ==> !IsArityMatch(s[parent].methods[k], info.methodName, info.arity)
  {
    match ConcreteInAncestors(h, s, parent, info.methodName, info.arity)
    case Some(ancestor) => DefaultImplementedMeaning(s, parent, info, ancestor);
    case None =>
  }

  /** The names of the first `n` calls. */
  function CallNames(calls: seq<SuperCallInfo>, n: nat): (r: seq<string>)
    requires n <= |calls|
    ensures |r| == n && forall i :: 0 <= i < n ==> r[i] == calls[i].methodName
  {
    if n == 0 then [] else CallNames(calls, n - 1) + [calls[n - 1].methodName]
  }

  /** The destination has a method with each call's name and arity. */
  predicate DeclaresAll(sigs: seq<Signature>, calls: seq<SuperCallInfo>) {
    forall i :: 0 <= i < |calls| ==>
      exists k :: 0 <= k < |sigs| && sigs[k].name == calls[i].methodName && |sigs[k].params| == calls[i].arity
  }

  /**
   * When the destination declares a method with each call's name and arity,
   * every call is handled: its name is reported and no warning is raised.
   */
  lemma {:induction false} AllHandledWhenDeclared(h: Hierarchy, s: State, parent: nat, p: Pos, calls: seq<SuperCallInfo>, n: nat)
    requires Acyclic(h) && |s| == |h| && parent < |s| && ValidPos(s, p) && n <= |calls|
    requires DeclaresAll(Signatures(s[parent]), calls)
    ensures CallsHandled(h, s, parent, p, calls, n).2 == []
    ensures |CallsHandled(h, s, parent, p, calls, n).1| == n
  {
    if n > 0 {
      AllHandledWhenDeclared(h, s, parent, p, calls, n - 1);
      NoWarningStep(h, s, parent, p, calls, n);
    }
  }

  lemma NoWarningStep(h: Hierarchy, s: State, parent: nat, p: Pos, calls: seq<SuperCallInfo>, n: nat)
    requires Acyclic(h) && |s| == |h| && parent < |s| && ValidPos(s, p) && 0 < n <= |calls|
    requires DeclaresAll(Signatures(s[parent]), calls) && CallsHandled(h, s, parent, p, calls, n - 1).2 == []
    ensures CallsHandled(h, s, parent, p, calls, n).2 == []
  {
    var prev := CallsHandled(h, s, parent, p, calls, n - 1).0;
    CallsHandledKeep(h, s, parent, p, calls, n - 1);
    HandledAfterKept(h, s, prev, parent, p, calls, n - 1);
    HandledStep(h, s, parent, p, calls, n);
  }

  /** A state that keeps the signatures still declares every call, so the next call is handled too. */
  lemma HandledAfterKept(h: Hierarchy, s: State, prev: State, parent: nat, p: Pos, calls: seq<SuperCallInfo>, i: nat)
    requires Acyclic(h) && |s| == |h| && parent < |s| && ValidPos(s, p) && i < |calls|
    requires DeclaresAll(Signatures(s[parent]), calls) && KeepsSignatures(s, prev) && SameShape(s, prev)
    ensures ValidPos(prev, p) && CallHandled(h, prev, parent, p, calls[i]).1
  {
    assert Signatures(prev[parent]) == Signatures(s[parent]);
    assert DeclaresAll(Signatures(prev[parent]), calls);
    assert |prev[p.cls].methods| == |s[p.cls].methods|;
    CallHandledWhenDeclared(h, prev, parent, p, calls, i);
  }

  /** A handled call adds its name and no warning. */
  lemma HandledStep(h: Hierarchy, s: State, parent: nat, p: Pos, calls: seq<SuperCallInfo>, n: nat)
    requires Acyclic(h) && |s| == |h| && parent < |s| && ValidPos(s, p) && 0 < n <= |calls|
    requires CallHandled(h, CallsHandled(h, s, parent, p, calls, n - 1).0, parent, p, calls[n - 1]).1
    ensures CallsHandled(h, s, parent, p, calls, n).2 == CallsHandled(h, s, parent, p, calls, n - 1).2
  {
  }

  lemma CallHandledWhenDeclared(h: Hierarchy, s: State, parent: nat, p: Pos, calls: seq<SuperCallInfo>, i: nat)
    requires Acyclic(h) && |s| == |h| && parent < |s| && ValidPos(s, p) && i < |calls|
    requires DeclaresAll(Signatures(s[parent]), calls)
    ensures CallHandled(h, s, parent, p, calls[i]).1
  {
    var sigs := Signatures(s[parent]);
    assert DeclaresAll(sigs, calls);
    assert 0 <= i < |calls|;
    var k :| 0 <= k < |sigs| && sigs[k].name == calls[i].methodName && |sigs[k].params| == calls[i].arity;
    assert IsArityMatch(s[parent].methods[k], calls[i].methodName, calls[i].arity);
    CallUnhandledIff(h, s, parent, p, calls[i]);
  }

  /**
   * removeSuperCall as written loses its comment: when the comment was not in
   * the body before, it is not there afterwards, and the body is one
   * reference shorter.
   */
  lemma RemovalCommentLost(m: Method, i: nat, name: string)
    requires m.body.Some? && i < |m.body.value.elems|
    requires m.body.value.elems[i].Call? && Comment(RemovalComment(name)) !in m.body.value.elems
    ensures var d := CallDeleted(m, i);
            && d.body.Some? && Comment(RemovalComment(name)) !in d.body.value.elems
            && |d.body.value.elems| + 1 == |m.body.value.elems|
  {
  }

  /**
   * removeSuperCall as intended: the call is gone, the comment explaining the
   * removal stands in its place, and every other reference is untouched.
   */
  lemma RemovalCommentKept(m: Method, i: nat, name: string)
    requires m.body.Some? && i < |m.body.value.elems| && m.body.value.elems[i].Call?
    ensures var r := CallReplacedByComment(m, i, name);
            && r.body.Some? && |r.body.value.elems| == |m.body.value.elems|
            && r.body.value.elems[i] == Comment(RemovalComment(name))
            && (forall j :: 0 <= j < |m.body.value.elems| && j != i ==> r.body.value.elems[j] == m.body.value.elems[j])
            && r == m.(body := r.body) && r.body.value.text == m.body.value.text
  {
  }

  // ------------------------------------------------------ the figures example

  /** BaseFigure, AttributedFigure extending it, EllipseFigure extending that. */
  function FiguresHierarchy(): Hierarchy {
    [Header("org.jhotdraw.figures.BaseFigure", "BaseFigure", false, Absent, [], None),
     Header("org.jhotdraw.figures.AttributedFigure", "AttributedFigure", false, ClassType(0), [], None),
     Header("org.jhotdraw.figures.EllipseFigure", "EllipseFigure", false, ClassType(1), [], None)]
  }

  function Invalidate(modifiers: set<Modifier>, body: Option<Body>): Method {
    Method("invalidate", [], Void, modifiers, [], [], body)
  }

  /** `super.invalidate();` in the body of EllipseFigure.invalidate(). */
  function SuperInvalidate(): Elem {
    Call(MethodCall, ClassType(0), "invalidate", [], SuperTarget, [])
  }

  /**
   * The state right after invalidate() was pulled up from EllipseFigure as an
   * abstract declaration: BaseFigure has a public concrete invalidate(),
   * AttributedFigure is abstract with `protected abstract void invalidate()`,
   * EllipseFigure's own invalidate() is now protected and calls super.invalidate().
   */
  function FiguresState(): State {
    [Members(false, [Invalidate({Public}, Some(Body("{ }", [])))], []),
     Members(true, [Invalidate({Protected, Abstract}, None)], []),
     Members(false, [Invalidate({Protected}, Some(Body("{ super.invalidate(); }", [SuperInvalidate()])))], [])]
  }

  /** AttributedFigure's invalidate() once the default implementation is in place. */
  function Forwarding(): Method {
    Invalidate({Protected}, Some(Body("{ super.invalidate(); }", [])))
  }

  lemma FiguresCalls(s: State)
    requires s == FiguresState()
    ensures var elems := BodyElems(MethodAt(s, Pos(2, 0)));
            SuperCalls(elems, MethodNames([Invalidate({Protected, Abstract}, None)]), |elems|) == [SuperCallInfo(0, "invalidate", 0)]
  {
    var names := MethodNames([Invalidate({Protected, Abstract}, None)]);
    assert names == ["invalidate"];
    var elems := BodyElems(MethodAt(s, Pos(2, 0)));
    assert elems == [SuperInvalidate()];
    assert IsSuperCallTo(elems[0], names);
  }

  lemma FiguresStep(h: Hierarchy, s: State)
    requires h == FiguresHierarchy() && s == FiguresState() && Acyclic(h)
    ensures CallHandled(h, s, 1, Pos(2, 0), SuperCallInfo(0, "invalidate", 0)) == (s[1 := Members(false, [Forwarding()], [])], true)
  {
    FiguresFacts(h, s);
    HandledByDefault(h, s, 1, Pos(2, 0), SuperCallInfo(0, "invalidate", 0), s[0].methods[0], 0, Forwarding(),
                     s[1 := Members(false, [Forwarding()], [])]);
  }

  /** The steps of the default implementation in AttributedFigure, one by one. */
  lemma FiguresFacts(h: Hierarchy, s: State)
    requires h == FiguresHierarchy() && s == FiguresState() && Acyclic(h)
    ensures ValidPos(s, Pos(2, 0)) && |s| == |h|
    ensures ConcreteInAncestors(h, s, 1, "invalidate", 0) == Some(s[0].methods[0])
    ensures ArityIndex(s[1].methods, "invalidate", 0, 0) == Some(0) && 0 < |s[1].methods|
    ensures var m := s[1].methods[0];
            m.(modifiers := m.modifiers - {Abstract}, body := Some(DefaultBody(m, s[0].methods[0].name))) == Forwarding()
    ensures AbstractStatusUpdated(SetMethod(s, Pos(1, 0), Forwarding()), 1) == s[1 := Members(false, [Forwarding()], [])]
  {
    FiguresAncestor(h, s);
    FiguresForwarding(s);
    FiguresFlagCleared(s);
  }

  lemma FiguresAncestor(h: Hierarchy, s: State)
    requires h == FiguresHierarchy() && s == FiguresState() && Acyclic(h)
    ensures ConcreteInAncestors(h, s, 1, "invalidate", 0) == Some(s[0].methods[0])
  {
    assert Parent(h, 1) == Some(0);
    assert ConcreteIndex(s[0].methods, "invalidate", 0, 0) == Some(0);
  }

  lemma ForwardingInvalidate()
    ensures ForwardingText("invalidate", [], true) == "{ super.invalidate(); }"
  {
    assert Join([], ", ") == "";
  }

  lemma FiguresForwarding(s: State)
    requires s == FiguresState()
    ensures ArityIndex(s[1].methods, "invalidate", 0, 0) == Some(0) && 0 < |s[1].methods|
    ensures var m := s[1].methods[0];
            m.(modifiers := m.modifiers - {Abstract}, body := Some(DefaultBody(m, s[0].methods[0].name))) == Forwarding()
  {
    ForwardingInvalidate();
    var m := s[1].methods[0];
    assert DefaultBody(m, "invalidate") == Body("{ super.invalidate(); }", []);
    assert m.modifiers - {Abstract} == {Protected};
  }

  lemma FiguresFlagCleared(s: State)
    requires s == FiguresState()
    ensures AbstractStatusUpdated(SetMethod(s, Pos(1, 0), Forwarding()), 1) == s[1 := Members(false, [Forwarding()], [])]
  {
    var set1 := SetMethod(s, Pos(1, 0), Forwarding());
    assert s[1].methods[0 := Forwarding()] == [Forwarding()];
    assert set1 == s[1 := Members(true, [Forwarding()], [])];
    assert !HasAbstractMethod(set1[1]);
  }

  /** A call with a concrete implementation above and a matching declaration `k` in the destination gets a default implementation there. */
  lemma HandledByDefault(h: Hierarchy, s: State, parent: nat, p: Pos, info: SuperCallInfo, ancestor: Method,
                         k: nat, concrete: Method, result: State)
    requires Acyclic(h) && |s| == |h| && parent < |s| && ValidPos(s, p)
    requires ConcreteInAncestors(h, s, parent, info.methodName, info.arity) == Some(ancestor)
    requires ArityIndex(s[parent].methods, info.methodName, info.arity, 0) == Some(k) && k < |s[parent].methods|
    requires var m := s[parent].methods[k];
             m.(modifiers := m.modifiers - {Abstract}, body := Some(DefaultBody(m, ancestor.name))) == concrete
    requires AbstractStatusUpdated(SetMethod(s, Pos(parent, k), concrete), parent) == result
    ensures CallHandled(h, s, parent, p, info) == (result, true)
  {
  }

  lemma FiguresFold(h: Hierarchy, s: State)
    requires h == FiguresHierarchy() && s == FiguresState() && Acyclic(h)
    ensures CallsHandled(h, s, 1, Pos(2, 0), [SuperCallInfo(0, "invalidate", 0)], 1)
            == (s[1 := Members(false, [Forwarding()], [])], ["invalidate"], [])
  {
    FiguresStep(h, s);
    var calls := [SuperCallInfo(0, "invalidate", 0)];
    assert CallsHandled(h, s, 1, Pos(2, 0), calls, 0) == (s, [], []);
    var step := CallHandled(h, s, 1, Pos(2, 0), calls[0]);
    assert [] + [calls[0].methodName] == ["invalidate"];
    assert CallsHandled(h, s, 1, Pos(2, 0), calls, 1) == (step.0, [] + [calls[0].methodName], []);
  }

  /**
   * The super call is settled by a default implementation: AttributedFigure's
   * invalidate() becomes a concrete `protected void invalidate()` forwarding
   * to the superclass, AttributedFigure is no longer abstract, and
   * EllipseFigure keeps its super call.
   */
  lemma FiguresDefaultImplementation(h: Hierarchy, s: State)
    requires h == FiguresHierarchy() && s == FiguresState()
    ensures Acyclic(h)
    ensures var (t, result) := SuperCallHandling(h, s, Pos(2, 0), [Invalidate({Protected, Abstract}, None)], 1);
            && result.success && result.handledCalls == ["invalidate"] && result.warnings == []
            && t == s[1 := Members(false, [Invalidate({Protected}, Some(Body("{ super.invalidate(); }", [])))], [])]
  {
    assert Parent(h, 0) == None && Parent(h, 1) == Some(0) && Parent(h, 2) == Some(1);
    SuperclassesFirstAcyclic(h);
    FiguresCalls(s);
    FiguresFold(h, s);
  }

}
