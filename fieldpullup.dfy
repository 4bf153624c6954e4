/**
 * The field part of a pull-up: the fields the moved method reads or writes
 * that live on the origin or on a class between it and the destination are
 * validated, widened to a type every descendant's same-named field fits,
 * added to the destination and removed from the origin and the classes in
 * between.
 */
module FieldPullUp {
  import opened Common
  import opened JavaModel
  import DependencyAnalyzer

  /** The outcome of a field pull-up: its verdict, its message, the clones added to the destination and the warnings. */
  datatype FieldPullUpResult = FieldPullUpResult(success: bool, message: string, pulledUpFields: seq<Field>, warnings: seq<string>)

  function Succeeded(message: string, fields: seq<Field>): FieldPullUpResult {
    FieldPullUpResult(true, message, fields, [])
  }

  function Failed(message: string): FieldPullUpResult {
    FieldPullUpResult(false, message, [], [])
  }

  // ------------------------------------------------------ dependent fields

  /**
   * The classes strictly between `c` and `parent` on `c`'s superclass chain,
   * nearest first; the whole chain when `parent` is not on it.
   */
  function PathBelow(h: Hierarchy, c: nat, parent: nat): (r: seq<nat>)
    requires Acyclic(h)
    ensures forall x :: x in r ==> x in Ancestors(h, c)
    ensures parent !in r
    decreases Depth(h, c)
  {
    match Parent(h, c)
    case None => []
    case Some(p) =>
      ParentDepth(h, c);
      if p == parent then [] else [p] + PathBelow(h, p, parent)
  }

  /** The type resolves to a class of the model that lies on the path below `parent`. */
  predicate IsTypeBetween(h: Hierarchy, t: Type, descendant: nat, parent: nat)
    requires Acyclic(h)
  {
    t.ClassType? && IsClass(h, t.index) && t.index in PathBelow(h, descendant, parent)
  }

  /**
   * isTypeBetweenDescendantAndAncestor: walks up from the descendant's
   * superclass; meeting the destination or the end of the resolved chain
   * answers false, meeting the type first answers true.
   */
  method IsTypeBetweenDescendantAndAncestor(h: Hierarchy, t: Type, descendant: nat, parent: nat) returns (r: bool)
    requires Acyclic(h)
    ensures r == IsTypeBetween(h, t, descendant, parent)
  {
    if !(t.ClassType? && IsClass(h, t.index)) {
      return false;
    }
    var current := descendant;
    while true
      invariant t.index in PathBelow(h, descendant, parent) <==> t.index in PathBelow(h, current, parent)
      decreases Depth(h, current)
    {
      var superClass := Parent(h, current);
      if superClass.None? {
        return false;
      }
      if superClass.value == parent {
        return false;
      }
      if superClass.value == t.index {
        return true;
      }
      ParentDepth(h, current);
      current := superClass.value;
    }
  }

  /**
   * What checkFieldReference records for one body element: the declaration
   * of a field read or written on the origin itself, or on a class strictly
   * between the origin and the destination.
   */
  function DependentField(h: Hierarchy, s: State, e: Elem, child: nat, parent: nat): Option<Field>
    requires Acyclic(h)
  {
    if e.FieldAccess? && e.declaring != Absent then
      match FieldDeclaration(s, e.declaring, e.field)
      case None => None
      case Some(f) =>
        if e.declaring == ClassType(child) || IsTypeBetween(h, e.declaring, child, parent) then Some(f) else None
    else None
  }

  /** The fields recorded from the first `n` elements. */
  function DependentFields(h: Hierarchy, s: State, elems: seq<Elem>, child: nat, parent: nat, n: nat): (r: set<Field>)
    requires Acyclic(h) && n <= |elems|
    ensures forall f :: f in r <==> exists i :: 0 <= i < n && DependentField(h, s, elems[i], child, parent) == Some(f)
  {
    if n == 0 then {}
    else
      var r := DependentFields(h, s, elems, child, parent, n - 1);
      match DependentField(h, s, elems[n - 1], child, parent)
      case None => r
      case Some(f) => r + {f}
  }

  /** One more element adds the field it records, if any. */
  lemma DependentFieldsStep(h: Hierarchy, s: State, elems: seq<Elem>, child: nat, parent: nat, n: nat)
    requires Acyclic(h) && n < |elems|
    ensures DependentFields(h, s, elems, child, parent, n + 1) ==
      match DependentField(h, s, elems[n], child, parent)
      case None => DependentFields(h, s, elems, child, parent, n)
      case Some(f) => DependentFields(h, s, elems, child, parent, n) + {f}
  {
  }

  /** collectDependentFields: the scan over the method's body, filling a set. */
  method CollectDependentFields(h: Hierarchy, s: State, m: Method, child: nat, parent: nat) returns (dependentFields: set<Field>)
    requires Acyclic(h)
    ensures dependentFields == DependentFields(h, s, BodyElems(m), child, parent, |BodyElems(m)|)
  {
    var elems := BodyElems(m);
    dependentFields := {};
    for i := 0 to |elems|
      invariant dependentFields == DependentFields(h, s, elems, child, parent, i)
    {
      var e := elems[i];
      DependentFieldsStep(h, s, elems, child, parent, i);
      if e.FieldAccess? && e.declaring != Absent {
        var field := FieldDeclaration(s, e.declaring, e.field);
        if field.Some? {
          if e.declaring == ClassType(child) {
            dependentFields := dependentFields + {field.value};
          } else {
            var between := IsTypeBetweenDescendantAndAncestor(h, e.declaring, child, parent);
            if between {
              dependentFields := dependentFields + {field.value};
            }
          }
        }
      }
    }
  }

  // ------------------------------------------------------ validation

  /** `getTypeDeclaration() != null`: model types in range, library types on the classpath, primitives and Object resolve. */
  predicate Resolves(h: Hierarchy, t: Type) {
    match t
    case ClassType(i) => i < |h|
    case LibraryType(_, shadow) => shadow.Some?
    case Primitive(_) => true
    case Void => true
    case ObjectType => true
    case Absent => false
  }

  function PrivateWarning(name: string): string {
    "字段 " + name + " 为私有，将调整为 protected"
  }

  function SameNameIssue(name: string): string {
    "父类已存在同名字段: " + name
  }

  function InaccessibleTypeIssue(name: string): string {
    "字段 " + name + " 的类型在父类中不可访问"
  }

  /** A field cannot move: the destination has a field of that name, or the field's type does not resolve. */
  predicate IsBlocked(h: Hierarchy, s: State, parent: nat, f: Field)
    requires parent < |s|
  {
    FieldIndex(s[parent].fields, f.name).Some? || (f.ftype != Absent && !Resolves(h, f.ftype))
  }

  /** The reason recorded for a blocked field: the same-name rule is checked first. */
  function Reason(s: State, parent: nat, f: Field): string
    requires parent < |s|
  {
    if FieldIndex(s[parent].fields, f.name).Some? then SameNameIssue(f.name) else InaccessibleTypeIssue(f.name)
  }

  function Blocked(h: Hierarchy, s: State, fields: set<Field>, parent: nat): set<Field>
    requires parent < |s|
  {
    set f | f in fields && IsBlocked(h, s, parent, f)
  }

  function Allowed(h: Hierarchy, s: State, fields: set<Field>, parent: nat): set<Field>
    requires parent < |s|
  {
    set f | f in fields && !IsBlocked(h, s, parent, f)
  }

  /** The private-field warnings of the first `n` fields of `fs`, in order. */
  function PrivateWarnings(fs: seq<Field>, n: nat): (r: seq<string>)
    requires n <= |fs|
  {
    if n == 0 then []
    else PrivateWarnings(fs, n - 1) + (if Private in fs[n - 1].modifiers then [PrivateWarning(fs[n - 1].name)] else [])
  }

  /** The reasons of the first `n` blocked fields of `bs`, in order. */
  function BlockingIssues(s: State, parent: nat, bs: seq<Field>, n: nat): (r: seq<string>)
    requires parent < |s| && n <= |bs|
  {
    if n == 0 then [] else BlockingIssues(s, parent, bs, n - 1) + [Reason(s, parent, bs[n - 1])]
  }

  function ValidationFailure(issues: seq<string>): string {
    "字段验证失败:\n" + Join(Distinct(issues), "\n")
  }

  function ValidationMessage(allowed: nat, blocked: nat): string {
    "字段验证通过，允许上提 " + NatText(allowed) + " 个字段，阻断 " + NatText(blocked) + " 个"
  }

  /**
   * validateFieldsCanBePulledUp, with the set of fields it leaves behind
   * (the caller's set shrinks to the allowed fields). `order` is the
   * iteration order of the field set and of the map of blocked fields.
   */
  function Validation(h: Hierarchy, s: State, fields: set<Field>, parent: nat, order: set<Field> -> seq<Field>): (FieldPullUpResult, set<Field>)
    requires parent < |s| && IsEnumerator(order)
  {
    var allowed := Allowed(h, s, fields, parent);
    var blocked := Blocked(h, s, fields, parent);
    if allowed == {} then
      var bs := order(blocked);
      (Failed(ValidationFailure(BlockingIssues(s, parent, bs, |bs|))), allowed)
    else
      var fs := order(fields);
      (Succeeded(ValidationMessage(|allowed|, |blocked|), []).(warnings := PrivateWarnings(fs, |fs|)), allowed)
  }

  method ValidateFieldsCanBePulledUp(h: Hierarchy, s: State, fields: set<Field>, parent: nat, order: set<Field> -> seq<Field>)
    returns (result: FieldPullUpResult, allowed: set<Field>)
    requires parent < |s| && IsEnumerator(order)
    ensures (result, allowed) == Validation(h, s, fields, parent, order)
  {
    var fs := order(fields);
    var warnings, blockedBy := ScanFields(h, s, parent, fs);
    result, allowed := ValidationVerdict(h, s, fields, parent, order, warnings, blockedBy);
  }

  /** The second half of validateFieldsCanBePulledUp: from what the scan found to the result. */
  method ValidationVerdict(h: Hierarchy, s: State, fields: set<Field>, parent: nat, order: set<Field> -> seq<Field>,
                           warnings: seq<string>, blockedBy: map<Field, string>)
    returns (result: FieldPullUpResult, allowed: set<Field>)
    requires parent < |s| && IsEnumerator(order)
    requires warnings == PrivateWarnings(order(fields), |order(fields)|)
    requires blockedBy == BlockMap(h, s, parent, order(fields), |order(fields)|)
    ensures (result, allowed) == Validation(h, s, fields, parent, order)
  {
    var fs := order(fields);
    ScanOutcome(h, s, fields, parent, order);
    var blockingIssues: seq<string> := [];
    allowed := fields;
    if blockedBy != map[] {
      allowed := UnblockedFields(fs, blockedBy);
      blockingIssues := ReasonsInOrder(s, parent, blockedBy, order);
    }
    ghost var blocked := Blocked(h, s, fields, parent);
    assert allowed == Allowed(h, s, fields, parent) && blockedBy.Keys == blocked;
    if allowed == {} {
      result := Failed(ValidationFailure(blockingIssues));
      assert blockingIssues == BlockingIssues(s, parent, order(blocked), |order(blocked)|);
      return;
    }
    result := Succeeded(ValidationMessage(|allowed|, |blockedBy.Keys|), []);
    result := result.(warnings := result.warnings + warnings);
    assert result.warnings == warnings;
  }

  /**
   * What the scan over an iteration order of the fields finds: the blocked
   * fields with their reasons, and the rest as the allowed ones (all of
   * them when nothing is blocked).
   */
  lemma ScanOutcome(h: Hierarchy, s: State, fields: set<Field>, parent: nat, order: set<Field> -> seq<Field>)
    requires parent < |s| && IsEnumerator(order)
    ensures var fs := order(fields); var m := BlockMap(h, s, parent, fs, |fs|);
            && m.Keys == Blocked(h, s, fields, parent)
            && (forall f :: f in m ==> m[f] == Reason(s, parent, f))
            && Unblocked(fs, m.Keys, |fs|) == Allowed(h, s, fields, parent)
            && (m == map[] ==> Allowed(h, s, fields, parent) == fields && order(m.Keys) == [])
  {
    var fs := order(fields);
    assert Enumerates(fs, fields);
    EnumeratesMembers(fs, fields);
    BlockedKeys(h, s, fields, parent, fs, |fs|);
    AllowedFromKeys(h, s, fields, parent, fs, Blocked(h, s, fields, parent));
    if BlockMap(h, s, parent, fs, |fs|) == map[] {
      NoneBlocked(h, s, fields, parent);
      EmptyOrder(order);
    }
  }

  /** The scan over the fields: the private-field warnings in order, and each blocked field with its reason. */
  method ScanFields(h: Hierarchy, s: State, parent: nat, fs: seq<Field>) returns (warnings: seq<string>, blockedBy: map<Field, string>)
    requires parent < |s|
    ensures warnings == PrivateWarnings(fs, |fs|)
    ensures blockedBy == BlockMap(h, s, parent, fs, |fs|)
  {
    warnings := [];
    blockedBy := map[];
    for i := 0 to |fs|
      invariant warnings == PrivateWarnings(fs, i)
      invariant blockedBy == BlockMap(h, s, parent, fs, i)
    {
      var field := fs[i];
      if Private in field.modifiers {
        warnings := warnings + [PrivateWarning(field.name)];
      }
      if FieldIndex(s[parent].fields, field.name).Some? {
        blockedBy := blockedBy[field := SameNameIssue(field.name)];
        continue;
      }
      if field.ftype != Absent && !Resolves(h, field.ftype) {
        blockedBy := blockedBy[field := InaccessibleTypeIssue(field.name)];
        continue;
      }
    }
  }

  /** The fields of `fs` that have no entry in `blockedBy`. */
  method UnblockedFields(fs: seq<Field>, blockedBy: map<Field, string>) returns (allowed: set<Field>)
    ensures allowed == Unblocked(fs, blockedBy.Keys, |fs|)
  {
    allowed := {};
    for i := 0 to |fs|
      invariant allowed == Unblocked(fs, blockedBy.Keys, i)
    {
      if fs[i] !in blockedBy {
        allowed := allowed + {fs[i]};
      }
    }
  }

  /** The recorded reasons of the blocked fields, in the iteration order of the map's keys. */
  method ReasonsInOrder(s: State, parent: nat, blockedBy: map<Field, string>, order: set<Field> -> seq<Field>) returns (issues: seq<string>)
    requires parent < |s| && IsEnumerator(order)
    requires forall f :: f in blockedBy ==> blockedBy[f] == Reason(s, parent, f)
    ensures issues == BlockingIssues(s, parent, order(blockedBy.Keys), |order(blockedBy.Keys)|)
  {
    var keys := order(blockedBy.Keys);
    assert Enumerates(keys, blockedBy.Keys);
    EnumeratesMembers(keys, blockedBy.Keys);
    issues := [];
    for i := 0 to |keys|
      invariant issues == BlockingIssues(s, parent, keys, i)
    {
      issues := issues + [blockedBy[keys[i]]];
    }
  }

  /** The map of blocked fields to their reasons that the scan of the first `n` fields of `fs` builds. */
  function BlockMap(h: Hierarchy, s: State, parent: nat, fs: seq<Field>, n: nat): map<Field, string>
    requires parent < |s| && n <= |fs|
  {
    if n == 0 then map[]
    else
      var m := BlockMap(h, s, parent, fs, n - 1);
      if IsBlocked(h, s, parent, fs[n - 1]) then m[fs[n - 1] := Reason(s, parent, fs[n - 1])] else m
  }

  lemma {:induction false} BlockMapEntries(h: Hierarchy, s: State, parent: nat, fs: seq<Field>, n: nat)
    requires parent < |s| && n <= |fs|
    ensures forall f :: f in BlockMap(h, s, parent, fs, n) <==> f in fs[..n] && IsBlocked(h, s, parent, f)
    ensures forall f :: f in BlockMap(h, s, parent, fs, n) ==> BlockMap(h, s, parent, fs, n)[f] == Reason(s, parent, f)
  {
    if n > 0 {
      BlockMapEntries(h, s, parent, fs, n - 1);
      var m := BlockMap(h, s, parent, fs, n - 1);
      var x := fs[n - 1];
      var r := BlockMap(h, s, parent, fs, n);
      var blocked := IsBlocked(h, s, parent, x);
      assert r == if blocked then m[x := Reason(s, parent, x)] else m;
      assert fs[..n] == fs[..n - 1] + [x];
      forall f ensures f in r <==> f in fs[..n] && IsBlocked(h, s, parent, f) {
        assert f in fs[..n] <==> f in fs[..n - 1] || f == x;
      }
      forall f | f in r ensures r[f] == Reason(s, parent, f) {
        if f != x {
          assert f in m && r[f] == m[f];
        }
      }
    }
  }

  lemma BlockedKeys(h: Hierarchy, s: State, fields: set<Field>, parent: nat, fs: seq<Field>, n: nat)
    requires parent < |s| && n == |fs|
    requires forall f :: f in fs <==> f in fields
    ensures BlockMap(h, s, parent, fs, n).Keys == Blocked(h, s, fields, parent)
    ensures forall f :: f in BlockMap(h, s, parent, fs, n) ==> BlockMap(h, s, parent, fs, n)[f] == Reason(s, parent, f)
  {
    BlockMapEntries(h, s, parent, fs, n);
    assert fs[..n] == fs;
  }

  /** The fields among the first `n` of `fs` that are not blocked. */
  function Unblocked(fs: seq<Field>, blocked: set<Field>, n: nat): (r: set<Field>)
    requires n <= |fs|
    ensures forall f :: f in r <==> f in fs[..n] && f !in blocked
  {
    if n == 0 then {}
    else
      assert fs[..n] == fs[..n - 1] + [fs[n - 1]];
      Unblocked(fs, blocked, n - 1) + (if fs[n - 1] !in blocked then {fs[n - 1]} else {})
  }

  lemma AllowedFromKeys(h: Hierarchy, s: State, fields: set<Field>, parent: nat, fs: seq<Field>, blocked: set<Field>)
    requires parent < |s|
    requires forall f :: f in fs <==> f in fields
    requires blocked == Blocked(h, s, fields, parent)
    ensures Unblocked(fs, blocked, |fs|) == Allowed(h, s, fields, parent)
  {
    assert fs[..|fs|] == fs;
  }

  lemma NoneBlocked(h: Hierarchy, s: State, fields: set<Field>, parent: nat)
    requires parent < |s| && Blocked(h, s, fields, parent) == {}
    ensures Allowed(h, s, fields, parent) == fields
  {
    forall f | f in fields ensures !IsBlocked(h, s, parent, f) {
      assert f !in Blocked(h, s, fields, parent);
    }
  }

  /** A set iteration order lists nothing for the empty set. */
  lemma EmptyOrder<T(!new)>(order: set<T> -> seq<T>)
    requires IsEnumerator(order)
    ensures order({}) == []
  {
    var e := order({});
    assert Enumerates(e, {});
    assert |multiset(e)| == |e|;
  }

  // ------------------------------------------------------ the field's type

  /** `isSubtypeOf`: false when either side is null. */
  predicate IsSubtype(h: Hierarchy, a: Type, b: Type)
    requires Acyclic(h)
  {
    a != Absent && b != Absent && SubtypeOrSame(h, a, b)
  }

  /**
   * The walk of findCommonSuperType from `cur` with `guard` steps left: the
   * first type on the way up that `b` is a subtype of, climbing through
   * class declarations of the model or of the classpath; Object when the
   * walk ends first.
   */
  function ClimbToCommon(h: Hierarchy, cur: Type, b: Type, guard: nat): (r: Type)
    requires Acyclic(h)
    ensures r != Absent
    decreases guard
  {
    if cur == Absent || guard == 0 then ObjectType
    else if IsSubtype(h, b, cur) then cur
    else if HasClassDeclaration(h, cur) && DeclaredSuperclass(h, cur) != Absent then
      ClimbToCommon(h, DeclaredSuperclass(h, cur), b, guard - 1)
    else ObjectType
  }

  const CommonSuperGuard: nat := 64

  function CommonSuperOf(h: Hierarchy, a: Type, b: Type): Type
    requires Acyclic(h)
  {
    ClimbToCommon(h, a, b, CommonSuperGuard)
  }

  method FindCommonSuperType(h: Hierarchy, a: Type, b: Type) returns (r: Type)
    requires Acyclic(h)
    ensures r == CommonSuperOf(h, a, b)
  {
    var cur := a;
    var guard := CommonSuperGuard;
    while cur != Absent && guard > 0
      invariant ClimbToCommon(h, cur, b, guard) == CommonSuperOf(h, a, b)
      decreases guard
    {
      guard := guard - 1;
      if IsSubtype(h, b, cur) {
        return cur;
      }
      if HasClassDeclaration(h, cur) {
        var superRef := DeclaredSuperclass(h, cur);
        if superRef == Absent {
          break;
        }
        cur := superRef;
      } else {
        break;
      }
    }
    return ObjectType;
  }

  /**
   * One step of the fold: take the type when there is none yet, keep a
   * supertype, widen to a supertype, or meet at a common supertype.
   */
  function Widen(h: Hierarchy, current: Type, t: Type): Type
    requires Acyclic(h)
  {
    if current == Absent then t
    else if IsSubtype(h, t, current) then current
    else if IsSubtype(h, current, t) then t
    else CommonSuperOf(h, current, t)
  }

  /** The fold over the first `n` collected types. */
  function Widened(h: Hierarchy, types: seq<Type>, n: nat): (r: Type)
    requires Acyclic(h) && 1 <= n <= |types|
  {
    if n == 1 then types[0] else Widen(h, Widened(h, types, n - 1), types[n - 1])
  }

  /** The type of the first field called `name` that has a type. */
  function FirstTypedField(fields: seq<Field>, name: string): (r: Option<Type>)
    ensures r.Some? ==> r.value != Absent
  {
    if fields == [] then None
    else if fields[0].name == name && fields[0].ftype != Absent then Some(fields[0].ftype)
    else FirstTypedField(fields[1..], name)
  }

  /** The typed same-named fields of the first `n` classes of `descs`, one per class at most. */
  function DescendantFieldTypes(s: State, descs: seq<nat>, name: string, n: nat): (r: seq<Type>)
    requires n <= |descs| && forall i :: 0 <= i < |descs| ==> descs[i] < |s|
  {
    if n == 0 then []
    else DescendantFieldTypes(s, descs, name, n - 1)
         + (match FirstTypedField(s[descs[n - 1]].fields, name) case None => [] case Some(t) => [t])
  }

  /** The types the fold runs over: the lifted field's own, then each descendant's same-named field's. */
  function CollectedTypes(h: Hierarchy, s: State, lifted: Field, parent: nat): (r: seq<Type>)
    requires Acyclic(h) && |s| == |h|
  {
    var descs := Descendants(h, parent);
    (if lifted.ftype != Absent then [lifted.ftype] else []) + DescendantFieldTypes(s, descs, lifted.name, |descs|)
  }

  /** adjustFieldTypeForAllDescendants: the type the lifted field ends with. */
  function AdjustedType(h: Hierarchy, s: State, lifted: Field, parent: nat): Type
    requires Acyclic(h) && |s| == |h|
  {
    var types := CollectedTypes(h, s, lifted, parent);
    if types == [] then lifted.ftype else Widened(h, types, |types|)
  }

  /** collectAllDescendantClasses: the model's classes, in model order, that the ancestor is above. */
  method CollectAllDescendantClasses(h: Hierarchy, ancestor: nat) returns (descendants: seq<nat>)
    requires Acyclic(h) && IsClass(h, ancestor)
    ensures descendants == Descendants(h, ancestor)
  {
    descendants := [];
    for c := 0 to |h|
      invariant descendants + DescendantsFrom(h, ancestor, c) == DescendantsFrom(h, ancestor, 0)
    {
      DescendantsFromStep(h, ancestor, c);
      ghost var rest := DescendantsFrom(h, ancestor, c + 1);
      if IsClass(h, c) {
        var below := DependencyAnalyzer.IsSubclassOf(h, c, ancestor);
        if below {
          AppendAssoc(descendants, [c], rest);
          descendants := descendants + [c];
        }
      }
      assert descendants + rest == DescendantsFrom(h, ancestor, 0);
    }
  }

  method AdjustFieldTypeForAllDescendants(h: Hierarchy, s: State, lifted: Field, parent: nat) returns (adjusted: Field)
    requires Acyclic(h) && |s| == |h| && IsClass(h, parent)
    ensures adjusted == lifted.(ftype := AdjustedType(h, s, lifted, parent))
  {
    var name := lifted.name;
    var types: seq<Type> := [];
    if lifted.ftype != Absent {
      types := [lifted.ftype];
    }
    var descs := CollectAllDescendantClasses(h, parent);
    types := AppendDescendantFieldTypes(s, descs, name, types);
    if types == [] {
      return lifted;
    }
    var current := WidenAll(h, types);
    adjusted := lifted.(ftype := current);
  }

  /** The scan over the descendants: each one's first typed field of that name, appended in order. */
  method AppendDescendantFieldTypes(s: State, descs: seq<nat>, name: string, lead: seq<Type>) returns (types: seq<Type>)
    requires forall i :: 0 <= i < |descs| ==> descs[i] < |s|
    ensures types == lead + DescendantFieldTypes(s, descs, name, |descs|)
  {
    types := lead;
    for i := 0 to |descs|
      invariant types == lead + DescendantFieldTypes(s, descs, name, i)
    {
      var found := FindTypedField(s[descs[i]].fields, name);
      if found.Some? {
        types := types + [found.value];
      }
    }
  }

  /** The inner scan of a descendant's fields: the type of the first typed field of that name. */
  method FindTypedField(fields: seq<Field>, name: string) returns (found: Option<Type>)
    ensures found == FirstTypedField(fields, name)
  {
    for j := 0 to |fields|
      invariant FirstTypedField(fields[j..], name) == FirstTypedField(fields, name)
    {
      assert fields[j..][1..] == fields[j + 1..];
      if fields[j].name == name && fields[j].ftype != Absent {
        return Some(fields[j].ftype);
      }
    }
    assert fields[|fields|..] == [];
    return None;
  }

  /**
   * The fold over the collected types. The check for a null common
   * supertype never fires: findCommonSuperType falls back to Object.
   */
  method WidenAll(h: Hierarchy, types: seq<Type>) returns (current: Type)
    requires Acyclic(h) && 1 <= |types|
    ensures current == Widened(h, types, |types|)
  {
    current := types[0];
    for i := 1 to |types|
      invariant current == Widened(h, types, i)
    {
      var t := types[i];
      if current == Absent {
        current := t;
        continue;
      }
      if IsSubtype(h, t, current) {
      } else if IsSubtype(h, current, t) {
        current := t;
      } else {
        current := FindCommonSuperType(h, current, t);
      }
    }
  }

  // ------------------------------------------------------ moving one field

  /** The clone's modifiers: private becomes protected; a cross-module move makes it public. */
  function LiftedModifiers(mods: set<Modifier>, crossModule: bool): set<Modifier> {
    var widened := if Private in mods then mods - {Private} + {Protected} else mods;
    if crossModule then widened - {Protected, Private} + {Public} else widened
  }

  /** The clone pullUpSingleField adds to the destination, its type adjusted against the state before the move. */
  function LiftedField(h: Hierarchy, s: State, f: Field, parent: nat, crossModule: bool): (r: Field)
    requires Acyclic(h) && |s| == |h|
    ensures r.name == f.name
  {
    var clone := f.(modifiers := LiftedModifiers(f.modifiers, crossModule));
    clone.(ftype := AdjustedType(h, s, clone, parent))
  }

  /** `removeField`: the first element equal to `f` goes. */
  function WithoutFirst(fields: seq<Field>, f: Field): (r: seq<Field>)
    ensures multiset(r) == multiset(fields) - multiset{f}
  {
    if fields == [] then []
    else
      assert fields == [fields[0]] + fields[1..];
      if fields[0] == f then fields[1..] else [fields[0]] + WithoutFirst(fields[1..], f)
  }

  /** The first field called `name` goes, if there is one. */
  function WithoutFirstNamed(fields: seq<Field>, name: string): seq<Field> {
    match FieldIndex(fields, name)
    case None => fields
    case Some(k) => fields[..k] + fields[k + 1..]
  }

  function SetFields(s: State, c: nat, fields: seq<Field>): (r: State)
    requires c < |s|
    ensures |r| == |s|
  {
    s[c := s[c].(fields := fields)]
  }

  /** removeShadowingFieldsAlongPath: the walk up from `c`'s superclass to `parent`, each class losing its first field called `name`. */
  function ShadowsRemoved(h: Hierarchy, s: State, c: nat, parent: nat, name: string): (r: State)
    requires Acyclic(h) && |s| == |h|
    ensures |r| == |s|
    decreases Depth(h, c)
  {
    match Parent(h, c)
    case None => s
    case Some(p) =>
      if p == parent then s
      else
        ParentDepth(h, c);
        ShadowsRemoved(h, SetFields(s, p, WithoutFirstNamed(s[p].fields, name)), p, parent, name)
  }

  /** pullUpSingleField: the new members and the clone. */
  function SingleFieldPullUp(h: Hierarchy, s: State, f: Field, child: nat, parent: nat, crossModule: bool): (r: (State, Field))
    requires Acyclic(h) && |s| == |h| && child < |h| && parent < |h|
    ensures |r.0| == |s| && r.1.name == f.name
  {
    var clone := LiftedField(h, s, f, parent, crossModule);
    var added := SetFields(s, parent, s[parent].fields + [clone]);
    var removed := SetFields(added, child, WithoutFirst(added[child].fields, f));
    (ShadowsRemoved(h, removed, child, parent, clone.name), clone)
  }

  method RemoveShadowingFieldsAlongPath(w: Workspace, child: nat, parent: nat, name: string)
    requires w.Valid()
    modifies w
    ensures w.Valid()
    ensures w.members == ShadowsRemoved(w.types, old(w.members), child, parent, name)
  {
    var current := child;
    while true
      invariant |w.members| == |w.types|
      invariant ShadowsRemoved(w.types, w.members, current, parent, name) == ShadowsRemoved(w.types, old(w.members), child, parent, name)
      decreases Depth(w.types, current)
    {
      var superClass := Parent(w.types, current);
      if superClass.None? || superClass.value == parent {
        break;
      }
      var p := superClass.value;
      w.members := SetFields(w.members, p, WithoutFirstNamed(w.members[p].fields, name));
      ParentDepth(w.types, current);
      current := p;
    }
  }

  method PullUpSingleField(w: Workspace, field: Field, child: nat, parent: nat, crossModule: bool) returns (clonedField: Field)
    requires w.Valid() && child < |w.types| && IsClass(w.types, parent)
    modifies w
    ensures w.Valid()
    ensures (w.members, clonedField) == SingleFieldPullUp(w.types, old(w.members), field, child, parent, crossModule)
  {
    clonedField := field;
    if Private in clonedField.modifiers {
      clonedField := clonedField.(modifiers := clonedField.modifiers - {Private} + {Protected});
    }
    if crossModule {
      clonedField := clonedField.(modifiers := clonedField.modifiers - {Protected} - {Private} + {Public});
    }
    assert clonedField == field.(modifiers := LiftedModifiers(field.modifiers, crossModule));
    clonedField := AdjustFieldTypeForAllDescendants(w.types, w.members, clonedField, parent);
    w.members := SetFields(w.members, parent, w.members[parent].fields + [clonedField]);
    w.members := SetFields(w.members, child, WithoutFirst(w.members[child].fields, field));
    RemoveShadowingFieldsAlongPath(w, child, parent, clonedField.name);
  }

  // ------------------------------------------------------ the whole step

  /** The first `n` fields of `fs` moved one after the other, with their clones in order. */
  function FieldsPulledUp(h: Hierarchy, s: State, fs: seq<Field>, child: nat, parent: nat, crossModule: bool, n: nat): (r: (State, seq<Field>))
    requires Acyclic(h) && |s| == |h| && child < |h| && parent < |h| && n <= |fs|
    ensures |r.0| == |s| && |r.1| == n
    ensures NamesFollow(r.1, fs, n)
  {
    if n == 0 then (s, [])
    else
      var before := FieldsPulledUp(h, s, fs, child, parent, crossModule, n - 1);
      var after := SingleFieldPullUp(h, before.0, fs[n - 1], child, parent, crossModule);
      NamesExtend(before.1, after.1, fs, n);
      (after.0, before.1 + [after.1])
  }

  function PulledUpMessage(n: nat): string {
    "成功上提 " + NatText(n) + " 个字段"
  }

  /**
   * pullUpDependentFields: no dependent field means success with nothing
   * moved; a failed validation is returned as it is; otherwise the allowed
   * fields move in iteration order. The validation's warnings are not
   * carried over.
   */
  function DependentFieldsPullUp(h: Hierarchy, s: State, m: Method, child: nat, parent: nat, crossModule: bool, order: set<Field> -> seq<Field>)
    : (r: (State, FieldPullUpResult))
    requires Acyclic(h) && |s| == |h| && child < |h| && parent < |h| && IsEnumerator(order)
    ensures |r.0| == |s|
  {
    var deps := DependentFields(h, s, BodyElems(m), child, parent, |BodyElems(m)|);
    if deps == {} then (s, Succeeded("方法无依赖字段需要上提", []))
    else
      var (validation, allowed) := Validation(h, s, deps, parent, order);
      if !validation.success then (s, validation)
      else
        var fs := order(allowed);
        var moved := FieldsPulledUp(h, s, fs, child, parent, crossModule, |fs|);
        (moved.0, Succeeded(PulledUpMessage(|moved.1|), moved.1))
  }

  method PullUpDependentFields(w: Workspace, m: Method, child: nat, parent: nat, crossModule: bool, order: set<Field> -> seq<Field>)
    returns (result: FieldPullUpResult)
    requires w.Valid() && child < |w.types| && IsClass(w.types, parent) && IsEnumerator(order)
    modifies w
    ensures w.Valid()
    ensures (w.members, result) == DependentFieldsPullUp(w.types, old(w.members), m, child, parent, crossModule, order)
  {
    var dependentFields := CollectDependentFields(w.types, w.members, m, child, parent);
    if dependentFields == {} {
      return Succeeded("方法无依赖字段需要上提", []);
    }
    var validationResult, allowed := ValidateFieldsCanBePulledUp(w.types, w.members, dependentFields, parent, order);
    if !validationResult.success {
      return validationResult;
    }
    var fs := order(allowed);
    var pulledUpFields: seq<Field> := [];
    ghost var s0 := w.members;
    for i := 0 to |fs|
      invariant w.Valid()
      invariant (w.members, pulledUpFields) == FieldsPulledUp(w.types, s0, fs, child, parent, crossModule, i)
    {
      var clonedField := PullUpSingleField(w, fs[i], child, parent, crossModule);
      pulledUpFields := pulledUpFields + [clonedField];
    }
    result := Succeeded(PulledUpMessage(|pulledUpFields|), pulledUpFields);
  }

  // ------------------------------------------------------ properties

  /** Below a destination on the chain, the path holds exactly the classes strictly between the two. */
  lemma {:induction false} PathBelowBetween(h: Hierarchy, c: nat, parent: nat, x: nat)
    requires Acyclic(h) && IsStrictAncestor(h, parent, c)
    ensures x in PathBelow(h, c, parent) <==> IsStrictAncestor(h, x, c) && IsStrictAncestor(h, parent, x)
    decreases Depth(h, c)
  {
    var p := Parent(h, c).value;
    ParentDepth(h, c);
    if p == parent {
      if IsStrictAncestor(h, x, c) && IsStrictAncestor(h, parent, x) {
        if x == p {
          NotOwnAncestor(h, parent);
        } else {
          AncestorTransitive(h, parent, x, parent);
          NotOwnAncestor(h, parent);
        }
      }
    } else {
      PathBelowBetween(h, p, parent, x);
      if x == p {
        assert IsStrictAncestor(h, parent, p);
      }
    }
  }

  /**
   * A field is dependent exactly when the body reads or writes it through a
   * reference whose declaring type is the origin, or a class strictly
   * between the origin and the destination.
   */
  lemma DependentFieldsIff(h: Hierarchy, s: State, m: Method, child: nat, parent: nat, f: Field)
    requires Acyclic(h) && IsStrictAncestor(h, parent, child)
    ensures var elems := BodyElems(m);
            f in DependentFields(h, s, elems, child, parent, |elems|) <==>
              exists i :: 0 <= i < |elems| && elems[i].FieldAccess?
                && FieldDeclaration(s, elems[i].declaring, elems[i].field) == Some(f)
                && (elems[i].declaring == ClassType(child)
                    || (IsClass(h, elems[i].declaring.index) && IsStrictAncestor(h, elems[i].declaring.index, child)
                        && IsStrictAncestor(h, parent, elems[i].declaring.index)))
  {
    var elems := BodyElems(m);
    forall i | 0 <= i < |elems| && elems[i].FieldAccess? && elems[i].declaring.ClassType?
      ensures IsTypeBetween(h, elems[i].declaring, child, parent) <==>
                IsClass(h, elems[i].declaring.index) && IsStrictAncestor(h, elems[i].declaring.index, child)
                && IsStrictAncestor(h, parent, elems[i].declaring.index)
    {
      PathBelowBetween(h, child, parent, elems[i].declaring.index);
    }
  }

  /** The destination's own fields are never dependent: only the origin and the classes below the destination count. */
  lemma DestinationFieldsExcluded(h: Hierarchy, s: State, e: Elem, child: nat, parent: nat)
    requires Acyclic(h) && IsStrictAncestor(h, parent, child)
    requires e.FieldAccess? && e.declaring == ClassType(parent)
    ensures DependentField(h, s, e, child, parent).None?
  {
    NotOwnAncestor(h, child);
  }

  /**
   * Validation keeps exactly the fields the destination has no same-named
   * field for and whose type resolves; it fails only when none is kept.
   * Success reports the counts kept and blocked.
   */
  lemma ValidationOutcome(h: Hierarchy, s: State, fields: set<Field>, parent: nat, order: set<Field> -> seq<Field>, f: Field)
    requires parent < |s| && IsEnumerator(order)
    ensures var (v, allowed) := Validation(h, s, fields, parent, order);
            var blocked := Blocked(h, s, fields, parent);
            && (f in allowed <==> f in fields && FieldIndex(s[parent].fields, f.name).None? && (f.ftype == Absent || Resolves(h, f.ftype)))
            && |allowed| + |blocked| == |fields|
            && (v.success <==> allowed != {})
            && v.pulledUpFields == []
            && (v.success ==> v.message == ValidationMessage(|allowed|, |blocked|))
            && (!v.success ==> v.warnings == [])
  {
    var allowed := Allowed(h, s, fields, parent);
    var blocked := Blocked(h, s, fields, parent);
    assert fields == allowed + blocked && allowed * blocked == {};
  }

  /**
   * A failed validation lists the reasons of the blocked fields, each reason
   * once: every blocked field's reason is there, and nothing else.
   */
  lemma ValidationFailureReasons(h: Hierarchy, s: State, fields: set<Field>, parent: nat, order: set<Field> -> seq<Field>, f: Field, reason: string)
    requires parent < |s| && IsEnumerator(order)
    requires !Validation(h, s, fields, parent, order).0.success
    ensures var bs := order(Blocked(h, s, fields, parent));
            var issues := Distinct(BlockingIssues(s, parent, bs, |bs|));
            && Validation(h, s, fields, parent, order).0.message == "字段验证失败:\n" + Join(issues, "\n")
            && (forall i, j :: 0 <= i < j < |issues| ==> issues[i] != issues[j])
            && (f in fields ==> IsBlocked(h, s, parent, f) && Reason(s, parent, f) in issues)
            && (reason in issues ==> exists g :: g in fields && IsBlocked(h, s, parent, g) && reason == Reason(s, parent, g))
  {
    var b := Blocked(h, s, fields, parent);
    var bs := order(b);
    assert Enumerates(bs, b);
    EnumeratesMembers(bs, b);
    var all := BlockingIssues(s, parent, bs, |bs|);
    if f in fields {
      assert f !in Allowed(h, s, fields, parent);
      assert f in b;
      var k :| 0 <= k < |bs| && bs[k] == f;
      IssueAt(s, parent, bs, |bs|, k);
    }
    if reason in Distinct(all) {
      var k := IssueFrom(s, parent, bs, |bs|, reason);
      assert bs[k] in b;
    }
  }

  lemma {:induction false} IssueAt(s: State, parent: nat, bs: seq<Field>, n: nat, k: nat)
    requires parent < |s| && k < n <= |bs|
    ensures Reason(s, parent, bs[k]) in BlockingIssues(s, parent, bs, n)
  {
    if k < n - 1 {
      IssueAt(s, parent, bs, n - 1, k);
    }
  }

  lemma {:induction false} IssueFrom(s: State, parent: nat, bs: seq<Field>, n: nat, reason: string) returns (k: nat)
    requires parent < |s| && n <= |bs| && reason in BlockingIssues(s, parent, bs, n)
    ensures k < n && reason == Reason(s, parent, bs[k])
  {
    if reason == Reason(s, parent, bs[n - 1]) {
      k := n - 1;
    } else {
      k := IssueFrom(s, parent, bs, n - 1, reason);
    }
  }

  /**
   * The visibility of a moved clone: a private field arrives protected, a
   * cross-module move makes it public and neither private nor protected, and
   * a package or public field moved within its module keeps its modifiers.
   * Non-visibility modifiers are kept.
   */
  lemma LiftedModifiersRules(mods: set<Modifier>, crossModule: bool)
    ensures var r := LiftedModifiers(mods, crossModule);
            && (forall k :: !IsVisibilityModifier(k) ==> (k in r <==> k in mods))
            && Private !in r
            && (crossModule ==> Public in r && Protected !in r)
            && (!crossModule && Private in mods ==> Protected in r)
            && (!crossModule && Private !in mods ==> r == mods)
  {
  }

  /** The climb meets at a type both `a` and `b` are below, unless it falls back to Object. */
  lemma {:induction false} ClimbAccepts(h: Hierarchy, a: Type, cur: Type, b: Type, guard: nat)
    requires Acyclic(h) && a != Absent
    requires SubtypeOrSame(h, a, cur)
    ensures var r := ClimbToCommon(h, cur, b, guard);
            r == ObjectType || (SubtypeOrSame(h, a, r) && SubtypeOrSame(h, b, r))
    decreases guard
  {
    if cur != Absent && guard != 0 && !IsSubtype(h, b, cur) && HasClassDeclaration(h, cur) && DeclaredSuperclass(h, cur) != Absent {
      var next := DeclaredSuperclass(h, cur);
      DeclaredSuperclassRank(h, cur);
      SubtypeOrSameTransitive(h, a, cur, next);
      ClimbAccepts(h, a, next, b, guard - 1);
    }
  }

  /**
   * The fold ends at a type every collected type is the same as or a
   * subtype of, when they are all reference types: the lifted field can
   * hold each descendant's value.
   */
  lemma {:induction false} WidenedAcceptsAll(h: Hierarchy, types: seq<Type>, n: nat)
    requires Acyclic(h) && 1 <= n <= |types|
    requires forall i :: 0 <= i < |types| ==> types[i].ClassType? || types[i].LibraryType? || types[i].ObjectType?
    ensures Widened(h, types, n) != Absent
    ensures forall i :: 0 <= i < n ==> SubtypeOrSame(h, types[i], Widened(h, types, n))
  {
    if n > 1 {
      WidenedAcceptsAll(h, types, n - 1);
      var current := Widened(h, types, n - 1);
      var r := Widened(h, types, n);
      WidenAccepts(h, current, types[n - 1]);
      forall i | 0 <= i < n - 1 ensures SubtypeOrSame(h, types[i], r) {
        if r != ObjectType {
          SubtypeOrSameTransitive(h, types[i], current, r);
        }
      }
    }
  }

  /** One step of the fold ends at a type above the new type, and above the type so far unless it is Object. */
  lemma WidenAccepts(h: Hierarchy, current: Type, t: Type)
    requires Acyclic(h) && current != Absent && (t.ClassType? || t.LibraryType? || t.ObjectType?)
    ensures var r := Widen(h, current, t);
            r != Absent && SubtypeOrSame(h, t, r) && (r == ObjectType || SubtypeOrSame(h, current, r))
  {
    if !IsSubtype(h, t, current) && !IsSubtype(h, current, t) {
      ClimbAccepts(h, current, current, t, CommonSuperGuard);
    }
  }

  /** The adjusted type of the lifted field accepts its own type and every descendant's same-named field type. */
  lemma AdjustedTypeAccepts(h: Hierarchy, s: State, lifted: Field, parent: nat)
    requires Acyclic(h) && |s| == |h|
    requires var types := CollectedTypes(h, s, lifted, parent);
             forall i :: 0 <= i < |types| ==> types[i].ClassType? || types[i].LibraryType? || types[i].ObjectType?
    ensures var types := CollectedTypes(h, s, lifted, parent);
            forall i :: 0 <= i < |types| ==> SubtypeOrSame(h, types[i], AdjustedType(h, s, lifted, parent))
  {
    var types := CollectedTypes(h, s, lifted, parent);
    if types != [] {
      WidenedAcceptsAll(h, types, |types|);
    }
  }

  /** What the shadow removal does to each class: the classes on the path lose their first field called `name`, the rest stay. */
  lemma {:induction false} ShadowsRemovedEffect(h: Hierarchy, s: State, c: nat, parent: nat, name: string, x: nat)
    requires Acyclic(h) && |s| == |h| && x < |s|
    ensures var r := ShadowsRemoved(h, s, c, parent, name);
            && r[x].methods == s[x].methods && r[x].isAbstract == s[x].isAbstract
            && r[x].fields == (if x in PathBelow(h, c, parent) then WithoutFirstNamed(s[x].fields, name) else s[x].fields)
    decreases Depth(h, c)
  {
    match Parent(h, c)
    case None =>
    case Some(p) =>
      if p != parent {
        ParentDepth(h, c);
        var s1 := SetFields(s, p, WithoutFirstNamed(s[p].fields, name));
        ShadowsRemovedEffect(h, s1, p, parent, name, x);
        if x == p {
          NotInOwnPath(h, p, parent);
        }
      }
  }

  lemma NotInOwnPath(h: Hierarchy, c: nat, parent: nat)
    requires Acyclic(h)
    ensures c !in PathBelow(h, c, parent)
  {
    NotOwnAncestor(h, c);
  }

  /**
   * Moving one field: the destination gains the clone at the end, the
   * origin loses the field, each class strictly between them loses its
   * first same-named field, and nothing else changes; methods and abstract
   * flags are untouched everywhere.
   */
  lemma SingleFieldPullUpEffect(h: Hierarchy, s: State, f: Field, child: nat, parent: nat, crossModule: bool, x: nat)
    requires Acyclic(h) && |s| == |h| && IsStrictAncestor(h, parent, child) && x < |s|
    ensures child < |h| && parent < |h|
    ensures var (t, clone) := SingleFieldPullUp(h, s, f, child, parent, crossModule);
            && clone == LiftedField(h, s, f, parent, crossModule)
            && clone.name == f.name
            && t[x].methods == s[x].methods && t[x].isAbstract == s[x].isAbstract
            && t[x].fields == (if x == parent then s[parent].fields + [clone]
                               else if x == child then WithoutFirst(s[child].fields, f)
                               else if x in PathBelow(h, child, parent) then WithoutFirstNamed(s[x].fields, f.name)
                               else s[x].fields)
  {
    assert child < |h| && parent < |h| by {
      NotOwnAncestor(h, child);
    }
    NotOwnAncestor(h, child);
    var clone := LiftedField(h, s, f, parent, crossModule);
    var added := SetFields(s, parent, s[parent].fields + [clone]);
    var removed := SetFields(added, child, WithoutFirst(added[child].fields, f));
    ShadowsRemovedEffect(h, removed, child, parent, clone.name, x);
    NotInOwnPath(h, child, parent);
  }

  /**
   * The whole step: with no dependent field, or when validation fails,
   * nothing changes; otherwise it succeeds, moves every allowed field once,
   * in iteration order, and reports how many.
   */
  lemma DependentFieldsPullUpOutcome(h: Hierarchy, s: State, m: Method, child: nat, parent: nat, crossModule: bool, order: set<Field> -> seq<Field>)
    requires Acyclic(h) && |s| == |h| && child < |h| && parent < |h| && IsEnumerator(order)
    ensures var deps := DependentFields(h, s, BodyElems(m), child, parent, |BodyElems(m)|);
            var allowed := Allowed(h, s, deps, parent);
            var (t, r) := DependentFieldsPullUp(h, s, m, child, parent, crossModule, order);
            && (r.success <==> deps == {} || allowed != {})
            && (!r.success || deps == {} ==> t == s && r.pulledUpFields == [])
            && r.warnings == []
            && (r.success && deps != {} ==>
                  && Enumerates(order(allowed), allowed)
                  && |order(allowed)| == |allowed|
                  && |r.pulledUpFields| == |allowed|
                  && r.message == PulledUpMessage(|allowed|)
                  && forall i :: 0 <= i < |allowed| ==> r.pulledUpFields[i].name == order(allowed)[i].name)
  {
    var deps := DependentFields(h, s, BodyElems(m), child, parent, |BodyElems(m)|);
    if deps != {} {
      var allowed := Allowed(h, s, deps, parent);
      assert Enumerates(order(allowed), allowed);
      assert |order(allowed)| == |allowed| by {
        assert |multiset(order(allowed))| == |multiset(allowed)|;
      }
    }
  }

  /** The clones come out in the order of the fields moved, each under its field's name. */
  /** The first `n` fields of `pulled` carry the names of the first `n` of `fs`, position by position. */
  predicate NamesFollow(pulled: seq<Field>, fs: seq<Field>, n: nat) {
    n <= |pulled| && n <= |fs| && forall i :: 0 <= i < n ==> pulled[i].name == fs[i].name
  }

  /** Names that follow `fs` position by position still do after one more field named like the next. */
  lemma NamesExtend(prev: seq<Field>, x: Field, fs: seq<Field>, n: nat)
    requires 0 < n <= |fs| && |prev| == n - 1 && x.name == fs[n - 1].name
    requires NamesFollow(prev, fs, n - 1)
    ensures NamesFollow(prev + [x], fs, n)
  {
  }

  // ------------------------------------------------------ the BaseG example

  /** BaseG with ChildG1 and ChildG2 below it, and the unrelated ViewA and ViewB. */
  function ViewsHierarchy(): Hierarchy {
    [Header("test.BaseG", "BaseG", false, Absent, [], None),
     Header("test.ChildG1", "ChildG1", false, ClassType(0), [], None),
     Header("test.ChildG2", "ChildG2", false, ClassType(0), [], None),
     Header("test.a.ViewA", "ViewA", false, Absent, [], None),
     Header("test.b.ViewB", "ViewB", false, Absent, [], None)]
  }

  function ViewField(view: nat): Field {
    Field("f", ClassType(view), {Public})
  }

  /** Each child declares a public field `f`, of type ViewA and ViewB respectively. */
  function ViewsState(): State {
    [Members(false, [], []),
     Members(false, [], [ViewField(3)]),
     Members(false, [], [ViewField(4)]),
     Members(false, [], []),
     Members(false, [], [])]
  }

  lemma ViewsAcyclic(h: Hierarchy)
    requires h == ViewsHierarchy()
    ensures Acyclic(h)
    ensures Descendants(h, 0) == [1, 2]
    ensures SuperclassRefs(h, 3) == [] && SuperclassRefs(h, 4) == []
    ensures Parent(h, 1) == Some(0)
  {
    assert Parent(h, 0) == None && Parent(h, 1) == Some(0) && Parent(h, 2) == Some(0);
    assert Parent(h, 3) == None && Parent(h, 4) == None;
    SuperclassesFirstAcyclic(h);
    assert Ancestors(h, 0) == [] && Ancestors(h, 1) == [0] && Ancestors(h, 2) == [0];
    assert Ancestors(h, 3) == [] && Ancestors(h, 4) == [];
    assert DescendantsFrom(h, 0, 5) == [];
    assert DescendantsFrom(h, 0, 3) == [];
    assert DescendantsFrom(h, 0, 1) == [1, 2];
  }

  /** ViewA and ViewB share no supertype but Object, so the fold over ViewA, ViewA, ViewB ends at Object. */
  lemma ViewsAdjustedType(h: Hierarchy, s: State)
    requires h == ViewsHierarchy() && s == ViewsState()
    ensures Acyclic(h) && AdjustedType(h, s, ViewField(3), 0) == ObjectType
  {
    ViewsAcyclic(h);
    var descs := Descendants(h, 0);
    assert DescendantFieldTypes(s, descs, "f", 2) == [ClassType(3), ClassType(4)];
    var types := CollectedTypes(h, s, ViewField(3), 0);
    assert types == [ClassType(3), ClassType(3), ClassType(4)];
    assert Widened(h, types, 2) == ClassType(3);
    assert !IsSubtype(h, ClassType(4), ClassType(3)) && !IsSubtype(h, ClassType(3), ClassType(4));
    assert ClimbToCommon(h, ClassType(3), ClassType(4), CommonSuperGuard) == ObjectType;
  }

  /**
   * Moving ChildG1.f to BaseG: BaseG receives a public `f` of type Object,
   * ChildG1 loses its `f` and ChildG2 keeps its own.
   */
  lemma ViewFieldBecomesObject(h: Hierarchy, s: State)
    requires h == ViewsHierarchy() && s == ViewsState()
    ensures Acyclic(h)
    ensures var r := SingleFieldPullUp(h, s, ViewField(3), 1, 0, false);
            && r.1 == Field("f", ObjectType, {Public})
            && r.0 == s[0 := Members(false, [], [r.1])][1 := Members(false, [], [])]
  {
    ViewsAcyclic(h);
    ViewsAdjustedType(h, s);
    assert LiftedModifiers({Public}, false) == {Public};
    var lifted := Field("f", ObjectType, {Public});
    assert LiftedField(h, s, ViewField(3), 0, false) == lifted;
    assert s[0] == Members(false, [], []) && s[1] == Members(false, [], [ViewField(3)]);
    assert s[0].fields + [lifted] == [lifted];
    var added := SetFields(s, 0, [lifted]);
    assert WithoutFirst([ViewField(3)], ViewField(3)) == [];
    var removed := SetFields(added, 1, []);
    assert ShadowsRemoved(h, removed, 1, 0, "f") == removed;
  }
}
