/**
 * The visibility rules of a pull-up. The adjuster raises the moved method to
 * at least `protected`; the handler gives a pulled-up declaration and its
 * counterparts in the descendants one common visibility. The two read a
 * method's visibility with different precedences when a modifier set holds
 * more than one visibility keyword.
 */
module VisibilityAdjuster {
  import opened Common
  import opened JavaModel

  /** getCurrentVisibility of the adjuster: private before protected before public; none is package access. */
  function CurrentVisibility(mods: set<Modifier>): (v: Visibility)
    ensures v == Some(Private) <==> Private in mods
    ensures v == Some(Protected) <==> Protected in mods && Private !in mods
    ensures v == Some(Public) <==> Public in mods && Protected !in mods && Private !in mods
    ensures v == None <==> Public !in mods && Protected !in mods && Private !in mods
  {
    if Private in mods then Some(Private)
    else if Protected in mods then Some(Protected)
    else if Public in mods then Some(Public)
    else None
  }

  /** A value getCurrentVisibility can return. */
  predicate IsVisibility(v: Visibility) {
    v.None? || IsVisibilityModifier(v.value)
  }

  /** determineRequiredVisibility: private and package access become protected; protected and public stay. */
  function RequiredVisibility(v: Visibility): (r: Visibility)
    requires IsVisibility(v)
    ensures r == Some(Protected) || r == Some(Public)
    ensures r == Some(Public) <==> v == Some(Public)
  {
    if v == Some(Private) || v.None? then Some(Protected) else v
  }

  datatype VisibilityAdjustmentResult = VisibilityAdjustmentResult(
    adjusted: bool,
    message: string,
    originalVisibility: Visibility,
    newVisibility: Visibility)

  /** The modifier set with every visibility keyword removed and `target`'s added, unless it is public. */
  function AdjustedModifiers(mods: set<Modifier>, target: Visibility): (r: set<Modifier>)
    requires target == Some(Protected) || target == Some(Public)
    ensures forall k :: !IsVisibilityModifier(k) ==> (k in r <==> k in mods)
    ensures Public !in r && Private !in r && (Protected in r <==> target == Some(Protected))
  {
    (mods - {Public, Protected, Private}) + (if target != Some(Public) then {target.value} else {})
  }

  /** The method and the result adjustVisibility leaves. */
  function Adjustment(m: Method): (VisibilityAdjustmentResult, Method) {
    var original := CurrentVisibility(m.modifiers);
    var required := RequiredVisibility(original);
    if original == required then
      (VisibilityAdjustmentResult(false, "方法可见性已满足要求: " + VisibilityText(original), None, None), m)
    else
      (VisibilityAdjustmentResult(true, "可见性从 " + VisibilityText(original) + " 调整为 " + VisibilityText(required), original, required),
       m.(modifiers := AdjustedModifiers(m.modifiers, required)))
  }

  /**
   * adjustVisibility: edits the method's modifier set. A private or package
   * method becomes protected, with its other modifiers kept and the old and
   * new levels recorded; any other method is left as it is and the result
   * says no adjustment was made.
   */
  method AdjustVisibility(m: Method) returns (result: VisibilityAdjustmentResult, adjusted: Method)
    ensures (result, adjusted) == Adjustment(m)
    ensures adjusted == m.(modifiers := adjusted.modifiers)
    ensures forall k :: !IsVisibilityModifier(k) ==> (k in adjusted.modifiers <==> k in m.modifiers)
    ensures CurrentVisibility(adjusted.modifiers) == RequiredVisibility(CurrentVisibility(m.modifiers))
    ensures result.adjusted <==> CurrentVisibility(m.modifiers) == Some(Private) || CurrentVisibility(m.modifiers).None?
    ensures !result.adjusted ==> adjusted == m && result.originalVisibility.None? && result.newVisibility.None?
    ensures result.adjusted ==> result.originalVisibility == CurrentVisibility(m.modifiers)
                                && result.newVisibility == Some(Protected)
                                && adjusted.modifiers == (m.modifiers - {Public, Private}) + {Protected}
  {
    var original := CurrentVisibility(m.modifiers);
    var required := RequiredVisibility(original);
    if original == required {
      return VisibilityAdjustmentResult(false, "方法可见性已满足要求: " + VisibilityText(original), None, None), m;
    }
    var mods := m.modifiers - {Public, Protected, Private};
    if required != Some(Public) {
      mods := mods + {required.value};
    }
    result := VisibilityAdjustmentResult(true, "可见性从 " + VisibilityText(original) + " 调整为 " + VisibilityText(required), original, required);
    adjusted := m.(modifiers := mods);
  }

  /** A second adjustVisibility of an adjusted method reports no change and changes nothing. */
  lemma AdjustIdempotent(m: Method)
    ensures !Adjustment(Adjustment(m).1).0.adjusted
    ensures Adjustment(Adjustment(m).1).1 == Adjustment(m).1
  {
    var m1 := Adjustment(m).1;
    if CurrentVisibility(m.modifiers) != RequiredVisibility(CurrentVisibility(m.modifiers)) {
      assert Protected in m1.modifiers && Private !in m1.modifiers;
    }
  }

  /** needsVisibilityAdjustment: exactly the private and package methods need one. */
  function NeedsVisibilityAdjustment(m: Method): (r: bool)
    ensures r <==> CurrentVisibility(m.modifiers) == Some(Private) || CurrentVisibility(m.modifiers).None?
    ensures r <==> Adjustment(m).0.adjusted
  {
    CurrentVisibility(m.modifiers) != RequiredVisibility(CurrentVisibility(m.modifiers))
  }

  /** getSuggestedVisibility: the visibility adjustVisibility gives the method. */
  function SuggestedVisibility(m: Method): (r: Visibility)
    ensures r == CurrentVisibility(Adjustment(m).1.modifiers)
    ensures r == Some(Protected) || r == Some(Public)
  {
    RequiredVisibility(CurrentVisibility(m.modifiers))
  }
}

module VisibilityHandler {
  import opened Common
  import opened JavaModel

  /** getCurrentVisibility of the handler: public before protected before private; none is package access. */
  function CurrentVisibility(mods: set<Modifier>): (v: Visibility)
    ensures v == Some(Public) <==> Public in mods
    ensures v == Some(Protected) <==> Protected in mods && Public !in mods
    ensures v == Some(Private) <==> Private in mods && Public !in mods && Protected !in mods
    ensures v == None <==> Public !in mods && Protected !in mods && Private !in mods
  {
    if Public in mods then Some(Public)
    else if Protected in mods then Some(Protected)
    else if Private in mods then Some(Private)
    else None
  }

  /** Java's order of access levels: private, package, protected, public. */
  function Rank(v: Visibility): nat {
    match v
    case None => 1
    case Some(k) => if k == Public then 3 else if k == Protected then 2 else 0
  }

  /** determineTargetVisibility over the visibilities read from the methods involved. */
  function TargetVisibility(vs: seq<Visibility>): (r: Visibility)
    ensures r == Some(Protected) || r == Some(Public)
    ensures r == Some(Public) <==> Some(Public) in vs
  {
    if Some(Public) in vs then Some(Public)
    else if Some(Protected) in vs then Some(Protected)
    else Some(Protected)
  }

  /** The target is never narrower than any of the visibilities it was chosen from. */
  lemma TargetNeverNarrower(vs: seq<Visibility>)
    ensures forall i :: 0 <= i < |vs| ==> Rank(vs[i]) <= Rank(TargetVisibility(vs))
  {
    forall i | 0 <= i < |vs| ensures Rank(vs[i]) <= Rank(TargetVisibility(vs)) {
      if vs[i] == Some(Public) {
        assert Some(Public) in vs;
      }
    }
  }

  /** The modifier set after adjustMethodVisibility(method, target): no visibility keyword but the target's. */
  function WithVisibility(mods: set<Modifier>, target: Visibility): (r: set<Modifier>)
    requires target.None? || IsVisibilityModifier(target.value)
    ensures forall k :: !IsVisibilityModifier(k) ==> (k in r <==> k in mods)
    ensures CurrentVisibility(r) == target
  {
    (mods - {Public, Protected, Private}) + (if target.Some? then {target.value} else {})
  }

  function Visibilities(s: State, ps: seq<Pos>): (r: seq<Visibility>)
    requires forall i :: 0 <= i < |ps| ==> ValidPos(s, ps[i])
    ensures |r| == |ps| && forall i :: 0 <= i < |ps| ==> r[i] == CurrentVisibility(MethodAt(s, ps[i]).modifiers)
  {
    if ps == [] then [] else [CurrentVisibility(MethodAt(s, ps[0]).modifiers)] + Visibilities(s, ps[1..])
  }

  /**
   * One method of the loop: when its visibility differs from `target` it is
   * set to it and an entry headed `heading` is recorded; otherwise nothing
   * changes and nothing is recorded.
   */
  function Step(s: State, p: Pos, target: Visibility, heading: string): (r: (State, seq<string>))
    requires ValidPos(s, p)
    requires target.None? || IsVisibilityModifier(target.value)
    ensures SameShape(s, r.0)
    ensures forall c :: 0 <= c < |s| ==> r.0[c].fields == s[c].fields && r.0[c].isAbstract == s[c].isAbstract
  {
    var m := MethodAt(s, p);
    if CurrentVisibility(m.modifiers) != target then
      (SetMethod(s, p, m.(modifiers := WithVisibility(m.modifiers, target))), [AdjustmentEntry(heading, m.name, target)])
    else (s, [])
  }

  /** The adjustment entry for the method `name`: "<heading><name> 可见性调整为 <target>". */
  function AdjustmentEntry(heading: string, name: string, target: Visibility): string {
    heading + name + " 可见性调整为 " + VisibilityText(target)
  }

  /** The methods at `ps[..n]`, one Step after the other, with their entries in order. */
  function Unify(s: State, ps: seq<Pos>, n: nat, target: Visibility, heading: string): (r: (State, seq<string>))
    requires n <= |ps| && forall i :: 0 <= i < |ps| ==> ValidPos(s, ps[i])
    requires target.None? || IsVisibilityModifier(target.value)
    ensures SameShape(s, r.0)
    ensures forall c :: 0 <= c < |s| ==> r.0[c].fields == s[c].fields && r.0[c].isAbstract == s[c].isAbstract
  {
    if n == 0 then (s, [])
    else
      var prev := Unify(s, ps, n - 1, target, heading);
      assert ValidPos(s, ps[n - 1]);
      var step := Step(prev.0, ps[n - 1], target, heading);
      (step.0, prev.1 + step.1)
  }

  /** `after` is `before`, or `before` with its visibility set to `target`. */
  predicate Adjusts(before: Method, after: Method, target: Visibility)
    requires target.None? || IsVisibilityModifier(target.value)
  {
    after == before || after == before.(modifiers := WithVisibility(before.modifiers, target))
  }

  lemma AdjustsTransitive(a: Method, b: Method, c: Method, target: Visibility)
    requires target.None? || IsVisibilityModifier(target.value)
    requires Adjusts(a, b, target) && Adjusts(b, c, target)
    ensures Adjusts(a, c, target)
  {
  }

  /** What one Step does to the method at `q`: it adjusts it when `q` is the position stepped, and leaves it otherwise. */
  lemma StepAt(s: State, p: Pos, target: Visibility, heading: string, q: Pos)
    requires ValidPos(s, p) && ValidPos(s, q)
    requires target == Some(Protected) || target == Some(Public)
    ensures Adjusts(MethodAt(s, q), MethodAt(Step(s, p, target, heading).0, q), target)
    ensures q != p ==> MethodAt(Step(s, p, target, heading).0, q) == MethodAt(s, q)
    ensures q == p ==> CurrentVisibility(MethodAt(Step(s, p, target, heading).0, q).modifiers) == target
  {
  }

  /**
   * What Unify does to the method at `q`: it ends as it was or with only its
   * visibility set to the target; at one of `ps[..n]` it ends with the
   * target visibility, and elsewhere it is untouched.
   */
  lemma {:induction false} UnifyAt(s: State, ps: seq<Pos>, n: nat, target: Visibility, heading: string, q: Pos)
    requires n <= |ps| && forall i :: 0 <= i < |ps| ==> ValidPos(s, ps[i])
    requires target == Some(Protected) || target == Some(Public)
    requires ValidPos(s, q)
    ensures Adjusts(MethodAt(s, q), MethodAt(Unify(s, ps, n, target, heading).0, q), target)
    ensures q !in ps[..n] ==> MethodAt(Unify(s, ps, n, target, heading).0, q) == MethodAt(s, q)
    ensures q in ps[..n] ==> CurrentVisibility(MethodAt(Unify(s, ps, n, target, heading).0, q).modifiers) == target
  {
    if n > 0 {
      UnifyAt(s, ps, n - 1, target, heading, q);
      UnifyAtStep(s, ps, n, target, heading, q);
    }
  }

  /** The step of UnifyAt: the facts after `n - 1` positions carry over to `n`. */
  lemma UnifyAtStep(s: State, ps: seq<Pos>, n: nat, target: Visibility, heading: string, q: Pos)
    requires 0 < n <= |ps| && forall i :: 0 <= i < |ps| ==> ValidPos(s, ps[i])
    requires target == Some(Protected) || target == Some(Public)
    requires ValidPos(s, q)
    requires Adjusts(MethodAt(s, q), MethodAt(Unify(s, ps, n - 1, target, heading).0, q), target)
    requires q !in ps[..n - 1] ==> MethodAt(Unify(s, ps, n - 1, target, heading).0, q) == MethodAt(s, q)
    requires q in ps[..n - 1] ==> CurrentVisibility(MethodAt(Unify(s, ps, n - 1, target, heading).0, q).modifiers) == target
    ensures Adjusts(MethodAt(s, q), MethodAt(Unify(s, ps, n, target, heading).0, q), target)
    ensures q !in ps[..n] ==> MethodAt(Unify(s, ps, n, target, heading).0, q) == MethodAt(s, q)
    ensures q in ps[..n] ==> CurrentVisibility(MethodAt(Unify(s, ps, n, target, heading).0, q).modifiers) == target
  {
    var prev := Unify(s, ps, n - 1, target, heading).0;
    assert ValidPos(s, ps[n - 1]);
    var r := Step(prev, ps[n - 1], target, heading).0;
    assert Unify(s, ps, n, target, heading).0 == r;
    StepAt(prev, ps[n - 1], target, heading, q);
    AdjustsTransitive(MethodAt(s, q), MethodAt(prev, q), MethodAt(r, q), target);
    InPrefixStep(ps, n, q);
  }

  /** When every method at `ps[..n]` already has the target visibility, Unify changes nothing and records nothing. */
  lemma {:induction false} UnifySettled(s: State, ps: seq<Pos>, n: nat, target: Visibility, heading: string)
    requires n <= |ps| && forall i :: 0 <= i < |ps| ==> ValidPos(s, ps[i])
    requires forall i :: 0 <= i < n ==> CurrentVisibility(MethodAt(s, ps[i]).modifiers) == target
    requires target.None? || IsVisibilityModifier(target.value)
    ensures Unify(s, ps, n, target, heading) == (s, [])
  {
    if n > 0 {
      UnifySettled(s, ps, n - 1, target, heading);
      assert ValidPos(s, ps[n - 1]);
      assert CurrentVisibility(MethodAt(s, ps[n - 1]).modifiers) == target;
      var step := Step(s, ps[n - 1], target, heading);
      assert step == (s, []);
      assert Unify(s, ps, n - 1, target, heading).1 + step.1 == [];
    }
  }

  datatype VisibilityAdjustmentResult = VisibilityAdjustmentResult(
    success: bool,
    message: string,
    adjustments: seq<string>,
    warnings: seq<string>)

  /** The state and the result adjustMethodVisibility(abstractMethod, childMethods) leaves. */
  function Adjusted(s: State, parent: Pos, children: seq<Pos>): (r: (State, VisibilityAdjustmentResult))
    requires ValidPos(s, parent) && forall i :: 0 <= i < |children| ==> ValidPos(s, children[i])
    ensures SameShape(s, r.0)
  {
    var target := TargetVisibility(Visibilities(s, [parent] + children));
    var first := Unify(s, [parent], 1, target, "父类方法 ");
    var rest := Unify(first.0, children, |children|, target, "子类方法 ");
    (rest.0, VisibilityAdjustmentResult(true, "成功调整 " + NatText(|children| + 1) + " 个方法的可见性", first.1 + rest.1, []))
  }

  /** adjustMethodVisibility(method, target) when the method's visibility differs from the target, with its entry. */
  method AdjustOne(w: Workspace, p: Pos, target: Visibility, heading: string) returns (entry: seq<string>)
    requires |w.members| == |w.types| && ValidPos(w.members, p)
    requires target.None? || IsVisibilityModifier(target.value)
    modifies w
    ensures |w.members| == |w.types|
    ensures (w.members, entry) == Step(old(w.members), p, target, heading)
  {
    var m := MethodAt(w.members, p);
    entry := [];
    if CurrentVisibility(m.modifiers) != target {
      w.members := SetMethod(w.members, p, m.(modifiers := (m.modifiers - {Public, Protected, Private}) + (if target.Some? then {target.value} else {})));
      entry := [AdjustmentEntry(heading, m.name, target)];
    }
  }

  /** The loop of adjustMethodVisibility over the methods at `ps`, against one target. */
  method UnifyInPlace(w: Workspace, ps: seq<Pos>, target: Visibility, heading: string) returns (entries: seq<string>)
    requires |w.members| == |w.types| && forall j :: 0 <= j < |ps| ==> ValidPos(w.members, ps[j])
    requires target.None? || IsVisibilityModifier(target.value)
    modifies w
    ensures |w.members| == |w.types|
    ensures (w.members, entries) == Unify(old(w.members), ps, |ps|, target, heading)
  {
    entries := [];
    var i := 0;
    while i < |ps|
      invariant 0 <= i <= |ps| && |w.members| == |w.types|
      invariant (w.members, entries) == Unify(old(w.members), ps, i, target, heading)
    {
      assert ValidPos(old(w.members), ps[i]);
      var entry := AdjustOne(w, ps[i], target, heading);
      entries := entries + entry;
      i := i + 1;
    }
  }

  /**
   * adjustMethodVisibility, list overload: computes the target from all the
   * methods first, then sets the declaration's and each counterpart's
   * visibility to it where it differs, recording one entry per change.
   */
  method AdjustMethodVisibility(w: Workspace, parent: Pos, children: seq<Pos>) returns (result: VisibilityAdjustmentResult)
    requires w.Valid() && ValidPos(w.members, parent)
    requires forall i :: 0 <= i < |children| ==> ValidPos(w.members, children[i])
    modifies w
    ensures w.Valid()
    ensures (w.members, result) == Adjusted(old(w.members), parent, children)
  {
    var target := TargetVisibility(Visibilities(w.members, [parent] + children));
    ghost var s0 := w.members;
    var first := UnifyInPlace(w, [parent], target, "父类方法 ");
    assert forall i :: 0 <= i < |children| ==> ValidPos(s0, children[i]);
    var rest := UnifyInPlace(w, children, target, "子类方法 ");
    result := VisibilityAdjustmentResult(true, "成功调整 " + NatText(|children| + 1) + " 个方法的可见性", first + rest, []);
  }

  /**
   * After the adjustment the declaration and every counterpart carry the
   * target visibility, and no other method of the model is touched.
   */
  lemma AdjustedShareVisibility(s: State, parent: Pos, children: seq<Pos>)
    requires ValidPos(s, parent) && forall i :: 0 <= i < |children| ==> ValidPos(s, children[i])
    ensures CurrentVisibility(MethodAt(Adjusted(s, parent, children).0, parent).modifiers)
            == TargetVisibility(Visibilities(s, [parent] + children))
    ensures forall i :: 0 <= i < |children| ==>
              CurrentVisibility(MethodAt(Adjusted(s, parent, children).0, children[i]).modifiers)
              == TargetVisibility(Visibilities(s, [parent] + children))
    ensures forall q :: ValidPos(s, q) && q != parent && q !in children ==>
              MethodAt(Adjusted(s, parent, children).0, q) == MethodAt(s, q)
  {
    var r := Adjusted(s, parent, children).0;
    var target := TargetVisibility(Visibilities(s, [parent] + children));
    AdjustedAt(s, parent, children, parent);
    forall i | 0 <= i < |children| ensures CurrentVisibility(MethodAt(r, children[i]).modifiers) == target {
      AdjustedAt(s, parent, children, children[i]);
    }
    forall q | ValidPos(s, q) && q != parent && q !in children ensures MethodAt(r, q) == MethodAt(s, q) {
      AdjustedAt(s, parent, children, q);
    }
  }

  /**
   * The adjustment edits modifiers only: every method keeps everything else,
   * every modifier other than a visibility stays as it was, and fields and
   * abstract flags are untouched.
   */
  lemma AdjustedOnlyVisibility(s: State, parent: Pos, children: seq<Pos>)
    requires ValidPos(s, parent) && forall i :: 0 <= i < |children| ==> ValidPos(s, children[i])
    ensures forall q :: ValidPos(s, q) ==>
              MethodAt(Adjusted(s, parent, children).0, q)
              == MethodAt(s, q).(modifiers := MethodAt(Adjusted(s, parent, children).0, q).modifiers)
    ensures forall q, k :: ValidPos(s, q) && !IsVisibilityModifier(k) ==>
              (k in MethodAt(Adjusted(s, parent, children).0, q).modifiers <==> k in MethodAt(s, q).modifiers)
    ensures forall c :: 0 <= c < |s| ==>
              Adjusted(s, parent, children).0[c].fields == s[c].fields
              && Adjusted(s, parent, children).0[c].isAbstract == s[c].isAbstract
  {
    var r := Adjusted(s, parent, children).0;
    forall q | ValidPos(s, q)
      ensures MethodAt(r, q) == MethodAt(s, q).(modifiers := MethodAt(r, q).modifiers)
      ensures forall k :: !IsVisibilityModifier(k) ==> (k in MethodAt(r, q).modifiers <==> k in MethodAt(s, q).modifiers)
    {
      AdjustedAt(s, parent, children, q);
    }
  }

  /** The adjustment at one position `q`: a visibility-only edit, to the target at the declaration and its counterparts, none elsewhere. */
  lemma AdjustedAt(s: State, parent: Pos, children: seq<Pos>, q: Pos)
    requires ValidPos(s, parent) && forall i :: 0 <= i < |children| ==> ValidPos(s, children[i])
    requires ValidPos(s, q)
    ensures var r := Adjusted(s, parent, children).0;
            var target := TargetVisibility(Visibilities(s, [parent] + children));
            && Adjusts(MethodAt(s, q), MethodAt(r, q), target)
            && (q == parent || q in children ==> CurrentVisibility(MethodAt(r, q).modifiers) == target)
            && (q != parent && q !in children ==> MethodAt(r, q) == MethodAt(s, q))
  {
    var target := TargetVisibility(Visibilities(s, [parent] + children));
    var first := Unify(s, [parent], 1, target, "父类方法 ").0;
    UnifyAt(s, [parent], 1, target, "父类方法 ", q);
    assert q in [parent][..1] <==> q == parent by {
      assert [parent][..1] == [parent];
    }
    SameShapePositions(s, first, children);
    UnifyAt(first, children, |children|, target, "子类方法 ", q);
    assert children[..|children|] == children;
    var r := Unify(first, children, |children|, target, "子类方法 ").0;
    assert Adjusted(s, parent, children).0 == r;
    AdjustsTransitive(MethodAt(s, q), MethodAt(first, q), MethodAt(r, q), target);
  }

  /** Visibilities that all equal a target the rule can produce lead back to that target. */
  lemma TargetOfSettled(vs: seq<Visibility>, target: Visibility)
    requires |vs| > 0 && (target == Some(Protected) || target == Some(Public))
    requires forall i :: 0 <= i < |vs| ==> vs[i] == target
    ensures TargetVisibility(vs) == target
  {
    if target == Some(Public) {
      assert vs[0] == Some(Public);
    } else {
      assert Some(Public) !in vs;
    }
  }

  /** Running the adjustment again on its own outcome records no adjustment and changes nothing. */
  lemma AdjustRerun(s: State, parent: Pos, children: seq<Pos>)
    requires ValidPos(s, parent) && forall i :: 0 <= i < |children| ==> ValidPos(s, children[i])
    ensures var r := Adjusted(s, parent, children).0;
            Adjusted(r, parent, children).0 == r && Adjusted(r, parent, children).1.adjustments == []
  {
    var target := TargetVisibility(Visibilities(s, [parent] + children));
    var r := Adjusted(s, parent, children).0;
    AdjustedAt(s, parent, children, parent);
    forall i | 0 <= i < |children| ensures ValidPos(r, children[i]) && CurrentVisibility(MethodAt(r, children[i]).modifiers) == target {
      AdjustedAt(s, parent, children, children[i]);
    }
    SettledRerun(r, parent, children, target);
  }

  /** An adjustment over methods that all share a target the rule can produce changes nothing and records nothing. */
  lemma SettledRerun(r: State, parent: Pos, children: seq<Pos>, target: Visibility)
    requires ValidPos(r, parent) && forall i :: 0 <= i < |children| ==> ValidPos(r, children[i])
    requires target == Some(Protected) || target == Some(Public)
    requires CurrentVisibility(MethodAt(r, parent).modifiers) == target
    requires forall i :: 0 <= i < |children| ==> CurrentVisibility(MethodAt(r, children[i]).modifiers) == target
    ensures Adjusted(r, parent, children).0 == r && Adjusted(r, parent, children).1.adjustments == []
  {
    var ps := [parent] + children;
    var vs := Visibilities(r, ps);
    forall i | 0 <= i < |ps| ensures vs[i] == target {
      if i > 0 { assert ps[i] == children[i - 1]; }
    }
    TargetOfSettled(vs, target);
    UnifySettled(r, [parent], 1, target, "父类方法 ");
    UnifySettled(r, children, |children|, target, "子类方法 ");
  }

  /** validateMethodExistsInAllChildClasses: every listed class declares a method with that name and those parameter types. */
  method ValidateMethodExistsInAllChildClasses(s: State, name: string, params: seq<Param>, classes: seq<nat>) returns (r: bool)
    requires forall i :: 0 <= i < |classes| ==> classes[i] < |s|
    ensures r <==> forall i :: 0 <= i < |classes| ==> Declares(s[classes[i]], name, params)
  {
    var i := 0;
    while i < |classes|
      invariant 0 <= i <= |classes|
      invariant forall j :: 0 <= j < i ==> Declares(s[classes[j]], name, params)
    {
      var methods := s[classes[i]].methods;
      var found := false;
      var k := 0;
      while k < |methods|
        invariant 0 <= k <= |methods|
        invariant !found ==> forall j :: 0 <= j < k ==> !(methods[j].name == name && SameParameters(methods[j].params, params))
        invariant found ==> Declares(s[classes[i]], name, params)
      {
        if methods[k].name == name && SameParameters(methods[k].params, params) {
          found := true;
          break;
        }
        k := k + 1;
      }
      if !found {
        return false;
      }
      i := i + 1;
    }
    return true;
  }

  /** The class declares a method with this name and these parameter types. */
  predicate Declares(c: Members, name: string, params: seq<Param>) {
    exists k :: 0 <= k < |c.methods| && c.methods[k].name == name && SameParameters(c.methods[k].params, params)
  }

  /** addOverrideAnnotationProperly: an Override annotation is added unless one is already there; the modifiers stay. */
  function WithOverride(m: Method): (r: Method)
    ensures HasOverride(r)
    ensures r.modifiers == m.modifiers && r == m.(annotations := r.annotations)
    ensures HasOverride(m) ==> r == m
    ensures !HasOverride(m) ==> r.annotations == m.annotations + ["Override"]
  {
    if HasOverride(m) then m else m.(annotations := m.annotations + ["Override"])
  }

  /** Adding Override twice is adding it once. */
  lemma WithOverrideIdempotent(m: Method)
    ensures WithOverride(WithOverride(m)) == WithOverride(m)
    ensures multiset(WithOverride(m).annotations)["Override"] == multiset(m.annotations)["Override"] + (if HasOverride(m) then 0 else 1)
  {
  }

  /** addOverrideAnnotationProperly on the method at `p`, edited in place. */
  method AddOverrideAnnotationProperly(w: Workspace, p: Pos)
    requires w.Valid() && ValidPos(w.members, p)
    modifies w
    ensures w.Valid()
    ensures w.members == SetMethod(old(w.members), p, WithOverride(MethodAt(old(w.members), p)))
  {
    var m := MethodAt(w.members, p);
    if !("Override" in m.annotations) {
      w.members := SetMethod(w.members, p, m.(annotations := m.annotations + ["Override"]));
    } else {
      SetMethodSame(w.members, p);
    }
  }
}
