/**
 * The method-dependency step of a method pull-up. The origin's methods that
 * the pulled-up method calls stay in the origin, and each gets an abstract
 * declaration in the destination. The destination becomes abstract, the
 * origin's method becomes at least protected and is marked Override, every
 * descendant's matching method is brought to a common visibility, and the
 * super calls that now meet an abstract declaration are repaired.
 */
module MethodPullUp {
  import opened Common
  import opened JavaModel
  import ClassFinder
  import VisibilityHandler
  import SuperCallHandler

  datatype MethodPullUpResult = MethodPullUpResult(success: bool, message: string, pulledUpMethods: seq<Method>, warnings: seq<string>)

  function Succeeded(message: string, pulledUpMethods: seq<Method>): MethodPullUpResult {
    MethodPullUpResult(true, message, pulledUpMethods, [])
  }

  function Failed(message: string): MethodPullUpResult {
    MethodPullUpResult(false, message, [], [])
  }

  /** Each warning with the prefix in front. */
  function Prefixed(prefix: string, ws: seq<string>): (r: seq<string>)
    ensures |r| == |ws| && forall i :: 0 <= i < |ws| ==> r[i] == prefix + ws[i]
  {
    if ws == [] then [] else [prefix + ws[0]] + Prefixed(prefix, ws[1..])
  }

  // ------------------------------------------------------ collecting the dependencies

  /**
   * The origin's method a reference calls: a method invocation whose declaring
   * type is the origin and whose declaration is one of the origin's methods.
   */
  function CalledChildMethod(s: State, e: Elem, child: nat): (r: Option<nat>)
    ensures r.Some? ==> child < |s| && r.value < |s[child].methods|
  {
    if e.Call? && e.declaring == ClassType(child) then MethodDeclaration(s, e.kind, e.declaring, e.name, e.paramTypes) else None
  }

  /** The origin's methods called by the first `n` references. */
  function CalledMethods(s: State, elems: seq<Elem>, child: nat, n: nat): (r: set<nat>)
    requires n <= |elems|
    ensures forall k :: k in r <==> exists i :: 0 <= i < n && CalledChildMethod(s, elems[i], child) == Some(k)
    ensures forall k :: k in r ==> child < |s| && k < |s[child].methods|
  {
    if n == 0 then {}
    else
      var r := CalledMethods(s, elems, child, n - 1);
      match CalledChildMethod(s, elems[n - 1], child)
      case None => r
      case Some(k) => r + {k}
  }

  /**
   * collectDependentMethods as written: a called method is kept unless it is
   * equal, element by element, to the method being analysed. That method is
   * the adjusted copy made for the pull-up, so the origin's own declaration
   * is kept whenever the copy differs from it.
   */
  function DependentsAsWritten(s: State, m: Method, child: nat): set<nat>
    requires child < |s|
  {
    var called := CalledMethods(s, BodyElems(m), child, |BodyElems(m)|);
    set k | k in called && s[child].methods[k] != m
  }

  /** collectDependentMethods as intended: every called method of the origin except the one being pulled up, number `origin`. */
  function Dependents(s: State, m: Method, child: nat, origin: nat): set<nat> {
    CalledMethods(s, BodyElems(m), child, |BodyElems(m)|) - {origin}
  }

  method CollectDependentMethods(s: State, m: Method, child: nat, origin: nat) returns (dependentMethods: set<nat>)
    ensures dependentMethods == Dependents(s, m, child, origin)
    ensures origin !in dependentMethods
    ensures forall k :: k in dependentMethods <==>
              k != origin && exists i :: 0 <= i < |BodyElems(m)| && CalledChildMethod(s, BodyElems(m)[i], child) == Some(k)
  {
    var elems := BodyElems(m);
    dependentMethods := {};
    for i := 0 to |elems|
      invariant dependentMethods == CalledMethods(s, elems, child, i) - {origin}
    {
      var e := elems[i];
      CalledStep(s, elems, child, i);
      if e.Call? && e.declaring == ClassType(child) {
        var executable := MethodDeclaration(s, e.kind, e.declaring, e.name, e.paramTypes);
        if executable.Some? && executable.value != origin {
          dependentMethods := dependentMethods + {executable.value};
        }
      }
    }
  }

  /** One more reference adds the origin's method it calls, if any. */
  lemma CalledStep(s: State, elems: seq<Elem>, child: nat, i: nat)
    requires i < |elems|
    ensures CalledMethods(s, elems, child, i + 1)
            == CalledMethods(s, elems, child, i)
               + (if CalledChildMethod(s, elems[i], child).Some? then {CalledChildMethod(s, elems[i], child).value} else {})
  {
  }

  // ------------------------------------------------------ validation

  function SameSignatureIssue(name: string): string {
    "父类已存在同签名方法: " + name
  }

  function ValidationWarning(m: Method): string {
    if Private in m.modifiers then "方法 " + m.name + " 为私有，将调整为 protected abstract"
    else "方法 " + m.name + " 将转换为 abstract"
  }

  /** Every index of `ks` names a method of class `c`. */
  predicate ValidIndices(s: State, c: nat, ks: seq<nat>) {
    c < |s| && forall i :: 0 <= i < |ks| ==> ks[i] < |s[c].methods|
  }

  /** The blocking issues for the first `n` methods `ks` of the origin: one per method the destination already declares. */
  function BlockingIssues(s: State, child: nat, parent: nat, ks: seq<nat>, n: nat): seq<string>
    requires ValidIndices(s, child, ks) && parent < |s| && n <= |ks|
  {
    if n == 0 then []
    else
      var m := s[child].methods[ks[n - 1]];
      BlockingIssues(s, child, parent, ks, n - 1)
      + (if VisibilityHandler.Declares(s[parent], m.name, m.params) then [SameSignatureIssue(m.name)] else [])
  }

  /** No blocking issue exactly when the destination declares none of the first `n` methods. */
  lemma {:induction false} BlockingIssuesEmpty(s: State, child: nat, parent: nat, ks: seq<nat>, n: nat)
    requires ValidIndices(s, child, ks) && parent < |s| && n <= |ks|
    ensures BlockingIssues(s, child, parent, ks, n) == [] <==>
            forall i :: 0 <= i < n ==>
              !VisibilityHandler.Declares(s[parent], s[child].methods[ks[i]].name, s[child].methods[ks[i]].params)
  {
    if n > 0 {
      BlockingIssuesEmpty(s, child, parent, ks, n - 1);
    }
  }

  function ValidationWarnings(s: State, child: nat, ks: seq<nat>, n: nat): (r: seq<string>)
    requires ValidIndices(s, child, ks) && n <= |ks|
    ensures |r| == n
  {
    if n == 0 then [] else ValidationWarnings(s, child, ks, n - 1) + [ValidationWarning(s[child].methods[ks[n - 1]])]
  }

  /**
   * validateMethodsCanBePulledUp over the methods in iteration order: a
   * failure listing every clash, or a success carrying one warning per method.
   */
  function Validation(s: State, child: nat, parent: nat, ks: seq<nat>): MethodPullUpResult
    requires ValidIndices(s, child, ks) && parent < |s|
  {
    var issues := BlockingIssues(s, child, parent, ks, |ks|);
    if issues != [] then Failed("方法验证失败:\n" + Join(issues, "\n"))
    else MethodPullUpResult(true, "方法验证通过", [], ValidationWarnings(s, child, ks, |ks|))
  }

  method ValidateMethodsCanBePulledUp(s: State, child: nat, ks: seq<nat>, parent: nat) returns (result: MethodPullUpResult)
    requires ValidIndices(s, child, ks) && parent < |s|
    ensures result == Validation(s, child, parent, ks)
  {
    var blockingIssues: seq<string> := [];
    var warnings: seq<string> := [];
    for i := 0 to |ks|
      invariant blockingIssues == BlockingIssues(s, child, parent, ks, i)
      invariant warnings == ValidationWarnings(s, child, ks, i)
    {
      var method_ := s[child].methods[ks[i]];
      if VisibilityHandler.Declares(s[parent], method_.name, method_.params) {
        blockingIssues := blockingIssues + [SameSignatureIssue(method_.name)];
      }
      warnings := warnings + [ValidationWarning(method_)];
    }
    if blockingIssues != [] {
      return Failed("方法验证失败:\n" + Join(blockingIssues, "\n"));
    }
    result := MethodPullUpResult(true, "方法验证通过", [], warnings);
  }

  // ------------------------------------------------------ one method pulled up as abstract

  /** Private becomes protected; any other visibility stays. */
  function Unprivate(mods: set<Modifier>): set<Modifier> {
    if Private in mods then mods - {Private} + {Protected} else mods
  }

  /**
   * createAbstractMethodSignature and the adjustments after it: name, return
   * type, parameters and thrown types copied, the modifiers without final and
   * static, private turned into protected, abstract added; no annotations
   * and no body.
   */
  function AbstractDeclaration(m: Method): (r: Method)
    ensures r.name == m.name && r.params == m.params && r.returnType == m.returnType && r.thrown == m.thrown
    ensures r.annotations == [] && r.body.None?
    ensures Abstract in r.modifiers && Final !in r.modifiers && Static !in r.modifiers && Private !in r.modifiers
    ensures Protected in r.modifiers <==> Protected in m.modifiers || Private in m.modifiers
    ensures Public in r.modifiers <==> Public in m.modifiers
  {
    Method(m.name, m.params, m.returnType, Unprivate(m.modifiers - {Final, Static}) + {Abstract}, [], m.thrown, None)
  }

  /** The origin's own declaration afterwards: private becomes protected, and it carries Override. */
  function KeptInChild(m: Method): (r: Method)
    ensures HasOverride(r) && Private !in r.modifiers
    ensures r == m.(modifiers := r.modifiers, annotations := r.annotations)
    ensures Private in m.modifiers ==> Protected in r.modifiers
    ensures Private !in m.modifiers ==> r.modifiers == m.modifiers
  {
    VisibilityHandler.WithOverride(m.(modifiers := Unprivate(m.modifiers)))
  }

  /**
   * pullUpSingleMethodAsAbstract on method `k` of the origin: the destination
   * becomes abstract and gets the abstract declaration at its end, and the
   * origin keeps its method in the adjusted form.
   */
  function SingleMethodPullUp(s: State, child: nat, parent: nat, k: nat): (r: (State, Method))
    requires child < |s| && parent < |s| && k < |s[child].methods|
    ensures r.1 == AbstractDeclaration(s[child].methods[k])
    ensures |r.0| == |s| && r.0[parent].isAbstract
    ensures |r.0[parent].methods| == |s[parent].methods| + 1 && r.0[parent].methods[|s[parent].methods|] == r.1
    ensures ValidPos(r.0, Pos(child, k)) && MethodAt(r.0, Pos(child, k)) == KeptInChild(s[child].methods[k])
    ensures forall q :: ValidPos(s, q) && q != Pos(child, k) ==> ValidPos(r.0, q) && MethodAt(r.0, q) == MethodAt(s, q)
    ensures forall c :: 0 <= c < |s| ==> r.0[c].fields == s[c].fields && (c != parent ==> r.0[c].isAbstract == s[c].isAbstract)
    ensures forall c :: 0 <= c < |s| && c != parent ==> |r.0[c].methods| == |s[c].methods|
  {
    var m := s[child].methods[k];
    var declaration := AbstractDeclaration(m);
    var added := s[parent := s[parent].(isAbstract := true, methods := s[parent].methods + [declaration])];
    (SetMethod(added, Pos(child, k), KeptInChild(m)), declaration)
  }

  method PullUpSingleMethodAsAbstract(w: Workspace, k: nat, child: nat, parent: nat) returns (abstractMethod: Method)
    requires w.Valid() && child < |w.members| && parent < |w.members| && k < |w.members[child].methods|
    modifies w
    ensures w.Valid()
    ensures (w.members, abstractMethod) == SingleMethodPullUp(old(w.members), child, parent, k)
  {
    var method_ := w.members[child].methods[k];
    abstractMethod := Method(method_.name, method_.params, method_.returnType, method_.modifiers - {Final, Static}, [], method_.thrown, None);
    if Private in abstractMethod.modifiers {
      abstractMethod := abstractMethod.(modifiers := abstractMethod.modifiers - {Private} + {Protected});
    }
    abstractMethod := abstractMethod.(modifiers := abstractMethod.modifiers + {Abstract}, body := None);
    if !w.members[parent].isAbstract {
      w.members := w.members[parent := w.members[parent].(isAbstract := true)];
    }
    w.members := w.members[parent := w.members[parent].(methods := w.members[parent].methods + [abstractMethod])];
    assert abstractMethod == AbstractDeclaration(method_);
    ghost var added := w.members;
    assert added == old(w.members)[parent := old(w.members)[parent].(isAbstract := true, methods := old(w.members)[parent].methods + [abstractMethod])];
    assert MethodAt(added, Pos(child, k)) == method_;
    var p := Pos(child, k);
    ghost var unprivate := method_.(modifiers := Unprivate(method_.modifiers));
    if Private in method_.modifiers {
      w.members := SetMethod(w.members, p, method_.(modifiers := method_.modifiers - {Private} + {Protected}));
    } else {
      SetMethodSame(w.members, p);
    }
    assert w.members == SetMethod(added, p, unprivate);
    if !("Override" in MethodAt(w.members, p).annotations) {
      VisibilityHandler.AddOverrideAnnotationProperly(w, p);
    } else {
      SetMethodSame(w.members, p);
    }
    SetMethodTwice(added, p, unprivate, KeptInChild(method_));
  }

  // ------------------------------------------------------ the matching methods of the descendants

  /** collectCorrespondingMethodsInAllChildClasses over the first `n` classes: the first matching method of each class that has one. */
  function CorrespondingMethods(s: State, classes: seq<nat>, name: string, params: seq<Param>, n: nat): (r: seq<Pos>)
    requires n <= |classes| && forall i :: 0 <= i < |classes| ==> classes[i] < |s|
    ensures |r| <= n
    ensures forall j :: 0 <= j < |r| ==>
              (ValidPos(s, r[j]) && ClassFinder.Matches(MethodAt(s, r[j]), name, params)
               && r[j] == Pos(r[j].cls, ClassFinder.MatchingMethod(s[r[j].cls].methods, name, params).value))
  {
    if n == 0 then []
    else
      var r := CorrespondingMethods(s, classes, name, params, n - 1);
      match ClassFinder.MatchingMethod(s[classes[n - 1]].methods, name, params)
      case None => r
      case Some(k) => r + [Pos(classes[n - 1], k)]
  }

  method CollectCorrespondingMethodsInAllChildClasses(s: State, name: string, params: seq<Param>, classes: seq<nat>)
    returns (correspondingMethods: seq<Pos>)
    requires forall i :: 0 <= i < |classes| ==> classes[i] < |s|
    ensures correspondingMethods == CorrespondingMethods(s, classes, name, params, |classes|)
  {
    correspondingMethods := [];
    for i := 0 to |classes|
      invariant correspondingMethods == CorrespondingMethods(s, classes, name, params, i)
    {
      var found := ClassFinder.FindMatchingMethod(s[classes[i]].methods, name, params);
      if found.Some? {
        correspondingMethods := correspondingMethods + [Pos(classes[i], found.value)];
      }
    }
  }

  // ------------------------------------------------------ the whole step

  function VisibilityWarnings(vr: VisibilityHandler.VisibilityAdjustmentResult): seq<string> {
    (if vr.success then [] else ["可见性调整失败: " + vr.message]) + Prefixed("可见性调整警告: ", vr.warnings)
  }

  /** `t` has the declarations of `s`, each with at least as many methods. */
  predicate Extends(s: State, t: State) {
    |s| == |t| && forall c :: 0 <= c < |s| ==> |s[c].methods| <= |t[c].methods|
  }

  /**
   * One method of the origin pulled up as abstract, then the visibility of
   * its declaration and of every descendant's matching method unified.
   */
  function PullUpStep(s: State, child: nat, parent: nat, classes: seq<nat>, k: nat): (r: (State, seq<string>))
    requires child < |s| && parent < |s| && k < |s[child].methods| && forall i :: 0 <= i < |classes| ==> classes[i] < |s|
    ensures Grows(s, r.0) && |r.0[parent].methods| == |s[parent].methods| + 1 && r.0[parent].isAbstract
    ensures Abstract in r.0[parent].methods[|s[parent].methods|].modifiers
    ensures SignatureOf(r.0[parent].methods[|s[parent].methods|]) == SignatureOf(s[child].methods[k])
    ensures SuperCallHandler.AbstractFlagsConsistent(s) ==> SuperCallHandler.AbstractFlagsConsistent(r.0)
  {
    var m := s[child].methods[k];
    var added := SingleMethodPullUp(s, child, parent, k).0;
    SingleMethodPullUpKeeps(s, child, parent, k);
    FlagsKept(s, added, parent);
    var corresponding := CorrespondingMethods(added, classes, m.name, m.params, |classes|);
    if corresponding == [] then (added, [])
    else
      var d := |s[parent].methods|;
      var adjusted := VisibilityHandler.Adjusted(added, Pos(parent, d), corresponding);
      AdjustedKeeps(added, Pos(parent, d), corresponding);
      GrowsTrans(s, added, adjusted.0);
      GrowsAt(added, adjusted.0, parent, d);
      FlagsKept(added, adjusted.0, parent);
      assert Abstract in adjusted.0[parent].methods[d].modifiers by {
        assert SameAbstractMethods(added[parent], adjusted.0[parent]);
      }
      (adjusted.0, VisibilityWarnings(adjusted.1))
  }

  /** The first `n` methods `ks` pulled up in turn: the state, where each declaration went in the destination, the warnings. */
  function AbstractsPulledUp(s: State, child: nat, parent: nat, classes: seq<nat>, ks: seq<nat>, n: nat)
    : (r: (State, seq<nat>, seq<string>))
    requires ValidIndices(s, child, ks) && parent < |s| && n <= |ks| && forall i :: 0 <= i < |classes| ==> classes[i] < |s|
    ensures Grows(s, r.0) && |r.1| == n && forall i :: 0 <= i < n ==> r.1[i] < |r.0[parent].methods|
    ensures n > 0 ==> r.0[parent].isAbstract
    ensures forall i :: 0 <= i < n ==> SignatureOf(r.0[parent].methods[r.1[i]]) == SignatureOf(s[child].methods[ks[i]])
    ensures SuperCallHandler.AbstractFlagsConsistent(s) ==> SuperCallHandler.AbstractFlagsConsistent(r.0)
  {
    if n == 0 then (s, [], [])
    else
      var prev := AbstractsPulledUp(s, child, parent, classes, ks, n - 1);
      GrowsAt(s, prev.0, child, ks[n - 1]);
      var r := Appended(prev, child, parent, classes, ks[n - 1]);
      AppendedGrows(prev, child, parent, classes, ks[n - 1]);
      FoldStep(s, child, parent, ks, n, prev.0, prev.1, r.0, r.1);
      r
  }

  /** The facts the pull-up loop keeps, carried from `n - 1` dependencies (`t`, `ps`) to `n` (`u`, `qs`). */
  lemma FoldStep(s: State, child: nat, parent: nat, ks: seq<nat>, n: nat, t: State, ps: seq<nat>, u: State, qs: seq<nat>)
    requires ValidIndices(s, child, ks) && parent < |s| && 0 < n <= |ks|
    requires Grows(s, t) && |ps| == n - 1 && forall i :: 0 <= i < n - 1 ==> ps[i] < |t[parent].methods|
    requires forall i :: 0 <= i < n - 1 ==> SignatureOf(t[parent].methods[ps[i]]) == SignatureOf(s[child].methods[ks[i]])
    requires Grows(t, u) && |u[parent].methods| == |t[parent].methods| + 1
    requires |qs| == n && qs[n - 1] == |t[parent].methods| && forall i :: 0 <= i < n - 1 ==> qs[i] == ps[i]
    requires SignatureOf(u[parent].methods[|t[parent].methods|]) == SignatureOf(t[child].methods[ks[n - 1]])
    ensures Grows(s, u) && forall i :: 0 <= i < n ==> qs[i] < |u[parent].methods|
    ensures forall i :: 0 <= i < n ==> SignatureOf(u[parent].methods[qs[i]]) == SignatureOf(s[child].methods[ks[i]])
  {
    GrowsTrans(s, t, u);
    GrowsAt(s, t, child, ks[n - 1]);
    forall i | 0 <= i < n ensures qs[i] < |u[parent].methods| && SignatureOf(u[parent].methods[qs[i]]) == SignatureOf(s[child].methods[ks[i]]) {
      if i < n - 1 {
        GrowsAt(t, u, parent, ps[i]);
      }
    }
  }

  /** One more method pulled up after `prev`: its declaration's position and its warnings appended. */
  function Appended(prev: (State, seq<nat>, seq<string>), child: nat, parent: nat, classes: seq<nat>, k: nat)
    : (r: (State, seq<nat>, seq<string>))
    requires child < |prev.0| && parent < |prev.0| && k < |prev.0[child].methods|
    requires forall i :: 0 <= i < |classes| ==> classes[i] < |prev.0|
    ensures |r.1| == |prev.1| + 1 && r.1[|prev.1|] == |prev.0[parent].methods| && r.1[..|prev.1|] == prev.1
  {
    var step := PullUpStep(prev.0, child, parent, classes, k);
    var ps: seq<nat> := prev.1 + [|prev.0[parent].methods|];
    assert ps[..|prev.1|] == prev.1;
    (step.0, ps, prev.2 + step.1)
  }

  /** The state after one more pull-up grows, with the declaration added at the end of the destination. */
  lemma AppendedGrows(prev: (State, seq<nat>, seq<string>), child: nat, parent: nat, classes: seq<nat>, k: nat)
    requires child < |prev.0| && parent < |prev.0| && k < |prev.0[child].methods|
    requires forall i :: 0 <= i < |classes| ==> classes[i] < |prev.0|
    ensures var r := Appended(prev, child, parent, classes, k);
            && Grows(prev.0, r.0) && r.0[parent].isAbstract && |r.0[parent].methods| == |prev.0[parent].methods| + 1
            && SignatureOf(r.0[parent].methods[|prev.0[parent].methods|]) == SignatureOf(prev.0[child].methods[k])
            && (SuperCallHandler.AbstractFlagsConsistent(prev.0) ==> SuperCallHandler.AbstractFlagsConsistent(r.0))
  {
    var step := PullUpStep(prev.0, child, parent, classes, k);
    assert Appended(prev, child, parent, classes, k).0 == step.0;
  }

  lemma ExtendsTrans(s: State, t: State, u: State)
    requires Extends(s, t) && Extends(t, u)
    ensures Extends(s, u)
  {
    forall c | 0 <= c < |s| ensures |s[c].methods| <= |u[c].methods| {
      assert |s[c].methods| <= |t[c].methods|;
    }
  }

  /** The destination's methods at the positions `ps`: the pulled-up declarations as they are now. */
  function MethodsAt(s: State, parent: nat, ps: seq<nat>): (r: seq<Method>)
    requires parent < |s| && forall i :: 0 <= i < |ps| ==> ps[i] < |s[parent].methods|
    ensures |r| == |ps| && forall i :: 0 <= i < |ps| ==> r[i] == s[parent].methods[ps[i]]
  {
    seq(|ps|, i requires 0 <= i < |ps| => s[parent].methods[ps[i]])
  }

  /** The super calls of the first `n` methods `ks` of the origin handled in turn, against the pulled-up declarations. */
  function SuperCallsHandled(h: Hierarchy, s: State, child: nat, parent: nat, ks: seq<nat>, ps: seq<nat>, n: nat)
    : (r: (State, seq<string>))
    requires Acyclic(h) && |s| == |h| && ValidIndices(s, child, ks) && parent < |s| && n <= |ks|
    requires forall i :: 0 <= i < |ps| ==> ps[i] < |s[parent].methods|
    ensures SameShape(s, r.0) && SuperCallHandler.KeepsSignatures(s, r.0)
    ensures SuperCallHandler.AbstractFlagsConsistent(s) ==> SuperCallHandler.AbstractFlagsConsistent(r.0)
  {
    if n == 0 then (s, [])
    else
      var prev := SuperCallsHandled(h, s, child, parent, ks, ps, n - 1);
      var handled := SuperCallHandler.SuperCallHandling(h, prev.0, Pos(child, ks[n - 1]), MethodsAt(prev.0, parent, ps), parent);
      SuperCallHandlingKeeps(h, prev.0, Pos(child, ks[n - 1]), MethodsAt(prev.0, parent, ps), parent);
      KeepsSignaturesTrans(s, prev.0, handled.0);
      (handled.0, prev.1 + Prefixed("Super调用处理警告: ", handled.1.warnings))
  }

  function PulledUpMessage(n: nat): string {
    "成功上提 " + NatText(n) + " 个抽象方法"
  }

  /**
   * pullUpDependentMethods for the copy `m` of the origin's method number
   * `origin`, with `classes` the destination's descendants and `order` the
   * iteration order of the dependency set.
   */
  function DependentMethodsPullUp(h: Hierarchy, s: State, m: Method, child: nat, parent: nat, origin: nat,
                                  classes: seq<nat>, order: set<nat> -> seq<nat>): (r: (State, MethodPullUpResult))
    requires Acyclic(h) && |s| == |h| && child < |s| && parent < |s| && IsEnumerator(order)
    requires forall i :: 0 <= i < |classes| ==> classes[i] < |s|
    ensures |r.0| == |s|
  {
    var deps := Dependents(s, m, child, origin);
    if deps == {} then (s, Succeeded("方法无依赖方法需要上提", []))
    else
      var ks := order(deps);
      DependentsValid(s, m, child, origin, ks);
      var validation := Validation(s, child, parent, ks);
      if !validation.success then (s, validation)
      else
        AllPulledUp(h, s, child, parent, classes, ks)
  }

  /**
   * The validated dependencies `ks` pulled up in turn, their super calls
   * handled, and the destination's abstract flag brought up to date: one
   * declaration in the destination per dependency, with its signature.
   */
  function AllPulledUp(h: Hierarchy, s: State, child: nat, parent: nat, classes: seq<nat>, ks: seq<nat>)
    : (r: (State, MethodPullUpResult))
    requires Acyclic(h) && |s| == |h| && ValidIndices(s, child, ks) && parent < |s|
    requires forall i :: 0 <= i < |classes| ==> classes[i] < |s|
    ensures |r.0| == |s| && Grows(s, r.0) && r.1.success && |r.1.pulledUpMethods| == |ks|
    ensures forall i :: 0 <= i < |ks| ==> SignatureOf(r.1.pulledUpMethods[i]) == SignatureOf(s[child].methods[ks[i]])
    ensures SuperCallHandler.AbstractFlagsConsistent(s) ==> SuperCallHandler.AbstractFlagsConsistent(r.0)
    ensures SuperCallHandler.AbstractFlagsConsistent(s) && ks != [] ==>
              (r.0[parent].isAbstract <==> SuperCallHandler.HasAbstractMethod(r.0[parent]))
  {
    var pulled := AbstractsPulledUp(s, child, parent, classes, ks, |ks|);
    if pulled.1 == [] then (pulled.0, MethodPullUpResult(true, PulledUpMessage(0), [], pulled.2))
    else
      var r := SuperCallsFinished(h, pulled.0, child, parent, ks, pulled.1, pulled.2);
      GrowsTrans(s, pulled.0, r.0);
      PulledSignatures(s, child, parent, ks, pulled.0, pulled.1, r.1.pulledUpMethods);
      r
  }

  /** The super calls of the pulled-up dependencies handled, the destination's abstract flag updated, and the declarations at `ps` returned. */
  function SuperCallsFinished(h: Hierarchy, t: State, child: nat, parent: nat, ks: seq<nat>, ps: seq<nat>, warnings: seq<string>)
    : (r: (State, MethodPullUpResult))
    requires Acyclic(h) && |t| == |h| && ValidIndices(t, child, ks) && parent < |t|
    requires forall i :: 0 <= i < |ps| ==> ps[i] < |t[parent].methods|
    ensures |r.0| == |t| && Grows(t, r.0) && r.1.success && |r.1.pulledUpMethods| == |ps|
    ensures forall i :: 0 <= i < |ps| ==> SignatureOf(r.1.pulledUpMethods[i]) == SignatureOf(t[parent].methods[ps[i]])
    ensures SuperCallHandler.AbstractFlagsConsistent(t) ==>
              && SuperCallHandler.AbstractFlagsConsistent(r.0)
              && (r.0[parent].isAbstract <==> SuperCallHandler.HasAbstractMethod(r.0[parent]))
  {
    var handled := SuperCallsHandled(h, t, child, parent, ks, ps, |ks|);
    var final := SuperCallHandler.AbstractStatusUpdated(handled.0, parent);
    KeepsSignaturesGrows(t, handled.0);
    FinalFlags(handled.0, final, parent);
    GrowsTrans(t, handled.0, final);
    var methods := MethodsAt(final, parent, ps);
    forall i | 0 <= i < |ps| ensures SignatureOf(methods[i]) == SignatureOf(t[parent].methods[ps[i]]) {
      GrowsAt(t, final, parent, ps[i]);
    }
    (final, MethodPullUpResult(true, PulledUpMessage(|ps|), methods, warnings + handled.1))
  }

  /** One iteration of the pull-up loop: the abstract declaration added, then the visibility of all matching methods unified. */
  method PullUpOne(w: Workspace, child: nat, parent: nat, classes: seq<nat>, k: nat) returns (warnings: seq<string>)
    requires w.Valid() && child < |w.members| && parent < |w.members| && k < |w.members[child].methods|
    requires forall i :: 0 <= i < |classes| ==> classes[i] < |w.members|
    modifies w
    ensures w.Valid()
    ensures (w.members, warnings) == PullUpStep(old(w.members), child, parent, classes, k)
  {
    var position := |w.members[parent].methods|;
    var dependentMethod := w.members[child].methods[k];
    var abstractMethod := PullUpSingleMethodAsAbstract(w, k, child, parent);
    assert MethodAt(w.members, Pos(parent, position)) == abstractMethod;
    var allChildMethods := CollectCorrespondingMethodsInAllChildClasses(w.members, dependentMethod.name, dependentMethod.params, classes);
    warnings := [];
    if allChildMethods != [] {
      var visibilityResult := VisibilityHandler.AdjustMethodVisibility(w, Pos(parent, position), allChildMethods);
      warnings := VisibilityWarnings(visibilityResult);
    }
  }

  /** The body of the pull-up loop: one more dependency pulled up, its declaration's position and its warnings recorded. */
  method PullUpNext(w: Workspace, child: nat, parent: nat, classes: seq<nat>, k: nat, positions: seq<nat>, warnings: seq<string>)
    returns (positions': seq<nat>, warnings': seq<string>)
    requires w.Valid() && child < |w.members| && parent < |w.members| && k < |w.members[child].methods|
    requires forall i :: 0 <= i < |classes| ==> classes[i] < |w.members|
    modifies w
    ensures w.Valid()
    ensures var step := PullUpStep(old(w.members), child, parent, classes, k);
            w.members == step.0 && positions' == positions + [|old(w.members)[parent].methods|] && warnings' == warnings + step.1
  {
    var position := |w.members[parent].methods|;
    var stepWarnings := PullUpOne(w, child, parent, classes, k);
    positions', warnings' := positions + [position], warnings + stepWarnings;
  }

  /** The pull-up loop over the dependencies in iteration order. */
  method PullUpAbstracts(w: Workspace, child: nat, parent: nat, classes: seq<nat>, ks: seq<nat>)
    returns (positions: seq<nat>, warnings: seq<string>)
    requires w.Valid() && ValidIndices(w.members, child, ks) && parent < |w.members|
    requires forall i :: 0 <= i < |classes| ==> classes[i] < |w.members|
    modifies w
    ensures w.Valid()
    ensures (w.members, positions, warnings) == AbstractsPulledUp(old(w.members), child, parent, classes, ks, |ks|)
  {
    positions, warnings := [], [];
    ghost var s0 := w.members;
    for i := 0 to |ks|
      invariant w.Valid()
      invariant (w.members, positions, warnings) == AbstractsPulledUp(s0, child, parent, classes, ks, i)
    {
      positions, warnings := PullUpNext(w, child, parent, classes, ks[i], positions, warnings);
    }
  }

  /** The super-call loop over the dependencies, each against the pulled-up declarations as they now are. */
  method HandleDependentSuperCalls(w: Workspace, child: nat, parent: nat, ks: seq<nat>, positions: seq<nat>)
    returns (warnings: seq<string>)
    requires w.Valid() && ValidIndices(w.members, child, ks) && parent < |w.members|
    requires forall i :: 0 <= i < |positions| ==> positions[i] < |w.members[parent].methods|
    modifies w
    ensures w.Valid()
    ensures (w.members, warnings) == SuperCallsHandled(w.types, old(w.members), child, parent, ks, positions, |ks|)
  {
    warnings := [];
    ghost var s0 := w.members;
    for i := 0 to |ks|
      invariant w.Valid()
      invariant (w.members, warnings) == SuperCallsHandled(w.types, s0, child, parent, ks, positions, i)
    {
      var pulledUpMethods := MethodsAt(w.members, parent, positions);
      var superCallResult := SuperCallHandler.HandleSuperCalls(w, Pos(child, ks[i]), pulledUpMethods, parent);
      warnings := warnings + Prefixed("Super调用处理警告: ", superCallResult.warnings);
    }
  }

  method PullUpDependentMethods(w: Workspace, m: Method, child: nat, parent: nat, origin: nat,
                                classes: seq<nat>, order: set<nat> -> seq<nat>)
    returns (result: MethodPullUpResult)
    requires w.Valid() && child < |w.members| && parent < |w.members| && IsEnumerator(order)
    requires forall i :: 0 <= i < |classes| ==> classes[i] < |w.members|
    modifies w
    ensures w.Valid()
    ensures (w.members, result) == DependentMethodsPullUp(w.types, old(w.members), m, child, parent, origin, classes, order)
  {
    var dependentMethods := CollectDependentMethods(w.members, m, child, origin);
    if dependentMethods == {} {
      return Succeeded("方法无依赖方法需要上提", []);
    }
    var ks := order(dependentMethods);
    DependentsValid(w.members, m, child, origin, ks);
    var validationResult := ValidateMethodsCanBePulledUp(w.members, child, ks, parent);
    if !validationResult.success {
      return validationResult;
    }
    var positions, warnings := PullUpAbstracts(w, child, parent, classes, ks);
    if positions != [] {
      var superCallWarnings := HandleDependentSuperCalls(w, child, parent, ks, positions);
      SuperCallHandler.UpdateParentClassAbstractStatus(w, parent);
      warnings := warnings + superCallWarnings;
    }
    result := MethodPullUpResult(true, PulledUpMessage(|positions|), MethodsAt(w.members, parent, positions), warnings);
  }

  /** The dependencies, in any order, are methods of the origin. */
  lemma DependentsValid(s: State, m: Method, child: nat, origin: nat, ks: seq<nat>)
    requires child < |s| && Enumerates(ks, Dependents(s, m, child, origin))
    ensures ValidIndices(s, child, ks)
  {
    EnumeratesMembers(ks, Dependents(s, m, child, origin));
    forall i | 0 <= i < |ks| ensures ks[i] < |s[child].methods| {
      assert ks[i] in Dependents(s, m, child, origin);
    }
  }

  // ------------------------------------------------------ what a step keeps

  function SignatureOf(m: Method): SuperCallHandler.Signature {
    SuperCallHandler.Signature(m.name, m.params, m.returnType)
  }

  /** Every method of `s` is still in `t` at its place with its signature; declarations may have gained methods at their ends. */
  predicate Grows(s: State, t: State) {
    Extends(s, t) && forall c, j :: 0 <= c < |s| && 0 <= j < |s[c].methods| ==> SignatureOf(t[c].methods[j]) == SignatureOf(s[c].methods[j])
  }

  /** A class whose methods are abstract exactly where they were. */
  predicate SameAbstractMethods(a: Members, b: Members) {
    |a.methods| == |b.methods| && forall k :: 0 <= k < |a.methods| ==> (Abstract in a.methods[k].modifiers <==> Abstract in b.methods[k].modifiers)
  }

  lemma GrowsTrans(s: State, t: State, u: State)
    requires Grows(s, t) && Grows(t, u)
    ensures Grows(s, u)
  {
    ExtendsTrans(s, t, u);
  }

  lemma SameAbstractMethodsKeep(a: Members, b: Members)
    requires SameAbstractMethods(a, b)
    ensures SuperCallHandler.HasAbstractMethod(b) ==> SuperCallHandler.HasAbstractMethod(a)
  {
    if SuperCallHandler.HasAbstractMethod(b) {
      var k :| 0 <= k < |b.methods| && Abstract in b.methods[k].modifiers;
      assert Abstract in a.methods[k].modifiers;
    }
  }

  /**
   * Pulling one method up as abstract keeps every signature, adds an abstract
   * declaration with the method's signature and marks the destination
   * abstract; the other classes keep their abstract methods.
   */
  lemma SingleMethodPullUpKeeps(s: State, child: nat, parent: nat, k: nat)
    requires child < |s| && parent < |s| && k < |s[child].methods|
    ensures var r := SingleMethodPullUp(s, child, parent, k).0;
            && Grows(s, r)
            && Abstract in r[parent].methods[|s[parent].methods|].modifiers
            && SignatureOf(r[parent].methods[|s[parent].methods|]) == SignatureOf(s[child].methods[k])
            && forall c :: 0 <= c < |s| && c != parent ==> SameAbstractMethods(s[c], r[c])
  {
    var r := SingleMethodPullUp(s, child, parent, k).0;
    forall c | 0 <= c < |s|
      ensures forall j :: 0 <= j < |s[c].methods| ==> SignatureOf(r[c].methods[j]) == SignatureOf(s[c].methods[j])
      ensures c != parent ==> SameAbstractMethods(s[c], r[c])
    {
      forall j | 0 <= j < |s[c].methods|
        ensures SignatureOf(s[c].methods[j]) == SignatureOf(r[c].methods[j])
        ensures Abstract in s[c].methods[j].modifiers <==> Abstract in r[c].methods[j].modifiers
      {
        assert ValidPos(s, Pos(c, j));
        if Pos(c, j) != Pos(child, k) {
          assert MethodAt(r, Pos(c, j)) == MethodAt(s, Pos(c, j));
        }
      }
    }
  }

  /** Unifying visibilities keeps every signature, every abstract flag and every method's abstractness. */
  lemma AdjustedKeeps(s: State, parent: Pos, children: seq<Pos>)
    requires ValidPos(s, parent) && forall i :: 0 <= i < |children| ==> ValidPos(s, children[i])
    ensures var r := VisibilityHandler.Adjusted(s, parent, children).0;
            && Grows(s, r)
            && forall c :: 0 <= c < |s| ==> SameAbstractMethods(s[c], r[c]) && r[c].isAbstract == s[c].isAbstract
  {
    var r := VisibilityHandler.Adjusted(s, parent, children).0;
    VisibilityHandler.AdjustedOnlyVisibility(s, parent, children);
    forall c | 0 <= c < |s|
      ensures forall j :: 0 <= j < |s[c].methods| ==> SignatureOf(r[c].methods[j]) == SignatureOf(s[c].methods[j])
      ensures SameAbstractMethods(s[c], r[c])
    {
      forall j | 0 <= j < |s[c].methods|
        ensures SignatureOf(s[c].methods[j]) == SignatureOf(r[c].methods[j])
        ensures Abstract in s[c].methods[j].modifiers <==> Abstract in r[c].methods[j].modifiers
      {
        assert ValidPos(s, Pos(c, j)) && !IsVisibilityModifier(Abstract);
        assert MethodAt(r, Pos(c, j)) == MethodAt(s, Pos(c, j)).(modifiers := MethodAt(r, Pos(c, j)).modifiers);
        assert Abstract in MethodAt(r, Pos(c, j)).modifiers <==> Abstract in MethodAt(s, Pos(c, j)).modifiers;
      }
    }
  }

  /** No class loses its abstract flag while it has an abstract method, if only the destination's abstract methods changed and it is abstract. */
  lemma FlagsKept(s: State, t: State, parent: nat)
    requires |s| == |t| && parent < |s| && t[parent].isAbstract
    requires forall c :: 0 <= c < |s| && c != parent ==> SameAbstractMethods(s[c], t[c]) && t[c].isAbstract == s[c].isAbstract
    ensures SuperCallHandler.AbstractFlagsConsistent(s) ==> SuperCallHandler.AbstractFlagsConsistent(t)
  {
    if SuperCallHandler.AbstractFlagsConsistent(s) {
      forall c | 0 <= c < |t| && SuperCallHandler.HasAbstractMethod(t[c]) ensures t[c].isAbstract {
        if c != parent {
          SameAbstractMethodsKeep(s[c], t[c]);
        }
      }
    }
  }

  lemma GrowsAt(t: State, u: State, c: nat, j: nat)
    requires Grows(t, u) && c < |t| && j < |t[c].methods|
    ensures j < |u[c].methods| && SignatureOf(u[c].methods[j]) == SignatureOf(t[c].methods[j])
  {
  }

  /** Handling the super calls of one method keeps every signature and the consistency of the abstract flags. */
  lemma SuperCallHandlingKeeps(h: Hierarchy, s: State, p: Pos, abstractMethods: seq<Method>, parent: nat)
    requires Acyclic(h) && |s| == |h| && parent < |s| && ValidPos(s, p)
    ensures var r := SuperCallHandler.SuperCallHandling(h, s, p, abstractMethods, parent).0;
            && SuperCallHandler.KeepsSignatures(s, r)
            && (SuperCallHandler.AbstractFlagsConsistent(s) ==> SuperCallHandler.AbstractFlagsConsistent(r))
  {
    var elems := BodyElems(MethodAt(s, p));
    var calls := SuperCallHandler.SuperCalls(elems, SuperCallHandler.MethodNames(abstractMethods), |elems|);
    if calls != [] {
      SuperCallHandler.CallsHandledKeep(h, s, parent, p, calls, |calls|);
    }
  }

  lemma KeepsSignaturesTrans(s: State, t: State, u: State)
    requires SuperCallHandler.KeepsSignatures(s, t) && SuperCallHandler.KeepsSignatures(t, u)
    ensures SuperCallHandler.KeepsSignatures(s, u)
  {
  }

  // ------------------------------------------------------ what the whole step promises

  /** The dependency that clashes with a declaration of the destination, if any, among the first `n` in iteration order. */
  lemma BlockingIssuesWitness(s: State, child: nat, parent: nat, ks: seq<nat>)
    requires ValidIndices(s, child, ks) && parent < |s|
    ensures BlockingIssues(s, child, parent, ks, |ks|) != [] <==>
            exists k :: k in ks && VisibilityHandler.Declares(s[parent], s[child].methods[k].name, s[child].methods[k].params)
  {
    BlockingIssuesEmpty(s, child, parent, ks, |ks|);
    if BlockingIssues(s, child, parent, ks, |ks|) != [] {
      var i :| 0 <= i < |ks| && VisibilityHandler.Declares(s[parent], s[child].methods[ks[i]].name, s[child].methods[ks[i]].params);
      assert ks[i] in ks;
    }
  }

  /**
   * The dependency step fails exactly when the destination already declares
   * a method with the name and parameter types of one of the dependencies;
   * it then changes nothing, and neither does it when there is no
   * dependency.
   */
  lemma PullUpFailsOnlyOnClash(h: Hierarchy, s: State, m: Method, child: nat, parent: nat, origin: nat,
                               classes: seq<nat>, order: set<nat> -> seq<nat>)
    requires Acyclic(h) && |s| == |h| && child < |s| && parent < |s| && IsEnumerator(order)
    requires forall i :: 0 <= i < |classes| ==> classes[i] < |s|
    ensures var r := DependentMethodsPullUp(h, s, m, child, parent, origin, classes, order);
            var deps := Dependents(s, m, child, origin);
            && (!r.1.success <==>
                exists k :: k in deps && VisibilityHandler.Declares(s[parent], s[child].methods[k].name, s[child].methods[k].params))
            && (!r.1.success || deps == {} ==> r.0 == s && r.1.pulledUpMethods == [])
  {
    var deps := Dependents(s, m, child, origin);
    if deps != {} {
      var ks := order(deps);
      DependentsValid(s, m, child, origin, ks);
      EnumeratesMembers(ks, deps);
      BlockingIssuesWitness(s, child, parent, ks);
    }
  }

  lemma KeepsSignaturesGrows(s: State, t: State)
    requires SuperCallHandler.KeepsSignatures(s, t)
    ensures Grows(s, t)
  {
    forall c, j | 0 <= c < |s| && 0 <= j < |s[c].methods|
      ensures j < |t[c].methods| && SignatureOf(t[c].methods[j]) == SignatureOf(s[c].methods[j])
    {
      assert SuperCallHandler.Signatures(t[c])[j] == SuperCallHandler.Signatures(s[c])[j];
    }
  }

  /** A set has as many elements as any order of iteration over it. */
  lemma EnumerationSize(ks: seq<nat>, deps: set<nat>)
    requires Enumerates(ks, deps)
    ensures |ks| == |deps|
  {
    assert |multiset(ks)| == |ks|;
    assert |multiset(deps)| == |deps|;
  }

  /**
   * A successful step with dependencies declares one abstract method in the
   * destination per dependency, with the dependency's name, parameters and
   * return type, returns those declarations, and keeps every other method's
   * signature where it was.
   */
  lemma PullUpDeclaresDependencies(h: Hierarchy, s: State, m: Method, child: nat, parent: nat, origin: nat,
                                   classes: seq<nat>, order: set<nat> -> seq<nat>)
    requires Acyclic(h) && |s| == |h| && child < |s| && parent < |s| && IsEnumerator(order)
    requires forall i :: 0 <= i < |classes| ==> classes[i] < |s|
    ensures var r := DependentMethodsPullUp(h, s, m, child, parent, origin, classes, order);
            var deps := Dependents(s, m, child, origin);
            var pulled := r.1.pulledUpMethods;
            r.1.success && deps != {} ==> |pulled| == |deps| && MatchOneForOne(s, child, deps, pulled)
  {
    var deps := Dependents(s, m, child, origin);
    var r := DependentMethodsPullUp(h, s, m, child, parent, origin, classes, order);
    if r.1.success && deps != {} {
      var ks := order(deps);
      DependentsValid(s, m, child, origin, ks);
      SucceededWithDependents(h, s, m, child, parent, origin, classes, order);
      MatchedOneForOne(s, child, ks, deps, r.1.pulledUpMethods);
    }
  }

  /** Whatever its outcome, a step keeps every method of the model at its place with its signature. */
  lemma PullUpKeepsSignatures(h: Hierarchy, s: State, m: Method, child: nat, parent: nat, origin: nat,
                              classes: seq<nat>, order: set<nat> -> seq<nat>)
    requires Acyclic(h) && |s| == |h| && child < |s| && parent < |s| && IsEnumerator(order)
    requires forall i :: 0 <= i < |classes| ==> classes[i] < |s|
    ensures Grows(s, DependentMethodsPullUp(h, s, m, child, parent, origin, classes, order).0)
  {
    var deps := Dependents(s, m, child, origin);
    if deps != {} {
      DependentsValid(s, m, child, origin, order(deps));
    }
  }

  /** A step that succeeds with dependencies is the pull-up of those dependencies in iteration order. */
  lemma SucceededWithDependents(h: Hierarchy, s: State, m: Method, child: nat, parent: nat, origin: nat,
                                classes: seq<nat>, order: set<nat> -> seq<nat>)
    requires Acyclic(h) && |s| == |h| && child < |s| && parent < |s| && IsEnumerator(order)
    requires forall i :: 0 <= i < |classes| ==> classes[i] < |s|
    ensures var r := DependentMethodsPullUp(h, s, m, child, parent, origin, classes, order);
            var deps := Dependents(s, m, child, origin);
            r.1.success && deps != {} ==>
              ValidIndices(s, child, order(deps)) && r == AllPulledUp(h, s, child, parent, classes, order(deps))
  {
    var deps := Dependents(s, m, child, origin);
    if deps != {} {
      DependentsValid(s, m, child, origin, order(deps));
    }
  }

  /** Every declaration has the signature of a method `deps` names in class `child`, and every such method has a declaration. */
  predicate MatchOneForOne(s: State, child: nat, deps: set<nat>, pulled: seq<Method>)
    requires child < |s| && forall k :: k in deps ==> k < |s[child].methods|
  {
    && (forall i :: 0 <= i < |pulled| ==> exists k :: k in deps && SignatureOf(pulled[i]) == SignatureOf(s[child].methods[k]))
    && (forall k :: k in deps ==> exists i :: 0 <= i < |pulled| && SignatureOf(pulled[i]) == SignatureOf(s[child].methods[k]))
  }

  /** Declarations matching an enumeration of `deps` one for one match `deps` itself, both ways. */
  lemma MatchedOneForOne(s: State, child: nat, ks: seq<nat>, deps: set<nat>, pulled: seq<Method>)
    requires ValidIndices(s, child, ks) && Enumerates(ks, deps) && |pulled| == |ks|
    requires forall k :: k in deps ==> k < |s[child].methods|
    requires forall i :: 0 <= i < |ks| ==> SignatureOf(pulled[i]) == SignatureOf(s[child].methods[ks[i]])
    ensures |pulled| == |deps| && MatchOneForOne(s, child, deps, pulled)
  {
    EnumeratesMembers(ks, deps);
    EnumerationSize(ks, deps);
    forall i | 0 <= i < |pulled| ensures exists k :: k in deps && SignatureOf(pulled[i]) == SignatureOf(s[child].methods[k]) {
      assert ks[i] in deps;
    }
    forall k | k in deps ensures exists i :: 0 <= i < |pulled| && SignatureOf(pulled[i]) == SignatureOf(s[child].methods[k]) {
      var i :| 0 <= i < |ks| && ks[i] == k;
      assert SignatureOf(pulled[i]) == SignatureOf(s[child].methods[ks[i]]);
    }
  }

  /** Declaration `i` of the result has the signature of dependency `ks[i]`. */
  lemma PulledSignatures(s: State, child: nat, parent: nat, ks: seq<nat>, t: State, ps: seq<nat>, pulled: seq<Method>)
    requires ValidIndices(s, child, ks) && parent < |t| && |ps| == |ks| && |pulled| == |ps|
    requires forall i :: 0 <= i < |ks| ==> ps[i] < |t[parent].methods|
    requires forall i :: 0 <= i < |ks| ==> SignatureOf(t[parent].methods[ps[i]]) == SignatureOf(s[child].methods[ks[i]])
    requires forall i :: 0 <= i < |ps| ==> SignatureOf(pulled[i]) == SignatureOf(t[parent].methods[ps[i]])
    ensures forall i :: 0 <= i < |ks| ==> SignatureOf(pulled[i]) == SignatureOf(s[child].methods[ks[i]])
  {
  }

  /**
   * In a model where every class with an abstract method is abstract, a
   * step keeps it so, and a successful step with dependencies leaves the
   * destination abstract exactly when one of its methods still is.
   */
  lemma PullUpKeepsAbstractFlags(h: Hierarchy, s: State, m: Method, child: nat, parent: nat, origin: nat,
                                 classes: seq<nat>, order: set<nat> -> seq<nat>)
    requires Acyclic(h) && |s| == |h| && child < |s| && parent < |s| && IsEnumerator(order)
    requires forall i :: 0 <= i < |classes| ==> classes[i] < |s|
    requires SuperCallHandler.AbstractFlagsConsistent(s)
    ensures var r := DependentMethodsPullUp(h, s, m, child, parent, origin, classes, order);
            && SuperCallHandler.AbstractFlagsConsistent(r.0)
            && (r.1.success && Dependents(s, m, child, origin) != {} ==>
                  (r.0[parent].isAbstract <==> SuperCallHandler.HasAbstractMethod(r.0[parent])))
  {
    var deps := Dependents(s, m, child, origin);
    if deps != {} {
      var ks := order(deps);
      DependentsValid(s, m, child, origin, ks);
      EnumeratesMembers(ks, deps);
      EnumerationSize(ks, deps);
    }
  }

  lemma FinalFlags(t: State, u: State, parent: nat)
    requires parent < |t| && u == SuperCallHandler.AbstractStatusUpdated(t, parent)
    ensures SuperCallHandler.AbstractFlagsConsistent(t) ==>
              && SuperCallHandler.AbstractFlagsConsistent(u)
              && (u[parent].isAbstract <==> SuperCallHandler.HasAbstractMethod(u[parent]))
  {
    assert SuperCallHandler.HasAbstractMethod(u[parent]) == SuperCallHandler.HasAbstractMethod(t[parent]);
  }

  /** Every descendant with a method of that name and those parameters contributes its first such method. */
  lemma {:induction false} CorrespondingComplete(s: State, classes: seq<nat>, name: string, params: seq<Param>, n: nat)
    requires n <= |classes| && forall i :: 0 <= i < |classes| ==> classes[i] < |s|
    ensures forall i :: 0 <= i < n && ClassFinder.MatchingMethod(s[classes[i]].methods, name, params).Some? ==>
              Pos(classes[i], ClassFinder.MatchingMethod(s[classes[i]].methods, name, params).value)
                in CorrespondingMethods(s, classes, name, params, n)
  {
    if n > 0 {
      CorrespondingComplete(s, classes, name, params, n - 1);
    }
  }

  // ------------------------------------------------------ the self-call finding

  /** `count(int n)`, calling itself, with the given modifiers. */
  function SelfCalling(modifiers: set<Modifier>): Method {
    Method("count", [Param("n", Primitive("int"))], Primitive("int"), modifiers, [], [],
           Some(Body("return n <= 0 ? 0 : count(n - 1);",
                     [Call(MethodCall, ClassType(0), "count", [Primitive("int")], ThisTarget, [Expr("n - 1")])])))
  }

  /**
   * A private recursive method pulled up from class 0: the copy being pulled
   * up is already protected, so as written the method's own declaration counts
   * among its dependencies, while the intended collection finds none.
   */
  lemma SelfCallCollectedAsWritten()
    ensures var s := [Members(false, [SelfCalling({Private})], [])];
            DependentsAsWritten(s, SelfCalling({Protected}), 0) == {0} && Dependents(s, SelfCalling({Protected}), 0, 0) == {}
  {
    var s := [Members(false, [SelfCalling({Private})], [])];
    var clone := SelfCalling({Protected});
    assert ParamTypes(s[0].methods[0].params) == [Primitive("int")];
    assert MethodDeclaration(s, MethodCall, ClassType(0), "count", [Primitive("int")]) == Some(0);
    assert CalledMethods(s, BodyElems(clone), 0, 1) == {0};
    assert s[0].methods[0] != clone by {
      assert Private in s[0].methods[0].modifiers;
    }
  }
}
