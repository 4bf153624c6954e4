/**
 * The code model the refactoring works on: an arena of type declarations that
 * stands in for Spoon's CtModel. A type reference to a declaration of the
 * model is the declaration's index. A body is the sequence of references
 * Spoon's scanner would visit in it (field accesses, calls, local variables).
 *
 * The declarations' headers (names, kind, supertypes) never change during a
 * refactoring; their members (abstract flag, methods, fields) do, so a
 * `Workspace` keeps the headers constant and the members in a variable.
 */
module JavaModel {
  import opened Common

  datatype Modifier = Public | Protected | Private | Abstract | Final | Static

  /** A visibility as the source reads it: PUBLIC, PROTECTED, PRIVATE, or None (package access). */
  type Visibility = Option<Modifier>

  predicate IsVisibilityModifier(k: Modifier) {
    k == Public || k == Protected || k == Private
  }

  /** A type reference; `Absent` stands for a null reference. */
  datatype Type =
    | ClassType(index: nat)                          // a class or interface declared in the model
    | LibraryType(name: string, shadow: Option<Shadow>) // a type outside the model, with its declaration when it is on the classpath
    | Primitive(keyword: string)
    | Void
    | ObjectType                                      // java.lang.Object
    | Absent

  /**
   * The declaration Spoon builds by reflection for a library type found on
   * the classpath (a shadow declaration): whether it is an interface, its
   * superclass (`Absent` when it has none) and the interfaces it names.
   */
  datatype Shadow = Shadow(isInterface: bool, superclass: Type, interfaces: seq<Type>)

  /** A size that shrinks from a library type to the types its shadow names. */
  function TypeSize(t: Type): nat {
    match t
    case LibraryType(_, shadow) =>
      if shadow.None? then 1 else 2 + TypeSize(shadow.value.superclass) + SizesSum(shadow.value.interfaces)
    case _ => 1
  }

  function SizesSum(ts: seq<Type>): nat {
    if ts == [] then 0 else TypeSize(ts[0]) + 1 + SizesSum(ts[1..])
  }

  /** Spoon's `isPrimitive()`, which holds for `void` as well. */
  predicate IsPrimitive(t: Type) {
    t.Primitive? || t.Void?
  }

  /** An argument of a call: a `this` access or any other expression, kept as its text. */
  datatype Arg = ThisAccess | Expr(code: string)

  datatype CallKind = MethodCall | ConstructorCall

  datatype Target = ThisTarget | SuperTarget | OtherTarget

  /** One reference inside a body, in the order the scanner visits them. */
  datatype Elem =
    | FieldAccess(write: bool, declaring: Type, field: string)
    | Call(kind: CallKind, declaring: Type, name: string, paramTypes: seq<Type>, target: Target, args: seq<Arg>)
    | LocalVar(name: string, varType: Type)
    | Comment(text: string)

  /** A body: its source text as printed when the model was built, and its references. */
  datatype Body = Body(text: string, elems: seq<Elem>)

  datatype Param = Param(name: string, ptype: Type)

  datatype Method = Method(
    name: string,
    params: seq<Param>,
    returnType: Type,
    modifiers: set<Modifier>,
    annotations: seq<string>,    // simple names of the annotation types
    thrown: seq<Type>,
    body: Option<Body>)

  datatype Field = Field(name: string, ftype: Type, modifiers: set<Modifier>)

  datatype Header = Header(
    qname: string,
    simpleName: string,
    isInterface: bool,
    superclass: Type,            // Absent when the declaration has no superclass
    interfaces: seq<Type>,
    file: Option<string>)        // the source file of the declaration's position, if it has one

  datatype Members = Members(isAbstract: bool, methods: seq<Method>, fields: seq<Field>)

  /** The declarations of a model, in the order the model lists them. */
  type Hierarchy = seq<Header>

  /** The members of the declarations, index by index. */
  type State = seq<Members>

  function ParamTypes(ps: seq<Param>): (r: seq<Type>)
    ensures |r| == |ps| && forall i :: 0 <= i < |ps| ==> r[i] == ps[i].ptype
  {
    if ps == [] then [] else [ps[0].ptype] + ParamTypes(ps[1..])
  }

  function ParamNames(ps: seq<Param>): (r: seq<string>)
    ensures |r| == |ps| && forall i :: 0 <= i < |ps| ==> r[i] == ps[i].name
  {
    if ps == [] then [] else [ps[0].name] + ParamNames(ps[1..])
  }

  /** The `hasSameParameters` test of several handlers: same number of parameters, equal types position by position. */
  predicate SameParameters(a: seq<Param>, b: seq<Param>) {
    |a| == |b| && forall i :: 0 <= i < |a| ==> a[i].ptype == b[i].ptype
  }

  /** The references of a method's body; none when it has no body. */
  function BodyElems(m: Method): seq<Elem> {
    if m.body.Some? then m.body.value.elems else []
  }

  predicate HasModifier(m: Method, k: Modifier) {
    k in m.modifiers
  }

  predicate HasOverride(m: Method) {
    "Override" in m.annotations
  }

  predicate IsClass(h: Hierarchy, i: nat) {
    i < |h| && !h[i].isInterface
  }

  function QualifiedName(h: Hierarchy, t: Type): string {
    match t
    case ClassType(i) => if i < |h| then h[i].qname else ""
    case LibraryType(n, _) => n
    case Primitive(k) => k
    case Void => "void"
    case ObjectType => "java.lang.Object"
    case Absent => ""
  }

  /** The text after the last '.' of a dotted name (all of it when there is none). */
  function AfterLastDot(n: string): (r: string)
    ensures '.' !in r && |r| <= |n| && r == n[|n| - |r|..]
    ensures |r| < |n| ==> n[|n| - |r| - 1] == '.'
  {
    if n == [] then []
    else if n[|n| - 1] == '.' then []
    else
      var r := AfterLastDot(n[..|n| - 1]);
      assert n[..|n| - 1][|n| - 1 - |r|..] + [n[|n| - 1]] == n[|n| - 1 - |r|..];
      r + [n[|n| - 1]]
  }

  /** A type reference's `getSimpleName()`. */
  function SimpleTypeName(h: Hierarchy, t: Type): string {
    match t
    case ClassType(i) => if i < |h| then h[i].simpleName else ""
    case LibraryType(n, _) => AfterLastDot(n)
    case Primitive(k) => k
    case Void => "void"
    case ObjectType => "Object"
    case Absent => ""
  }

  /**
   * The superclass of declaration `c` when it resolves to a class of the model
   * (`getSuperclass().getTypeDeclaration() instanceof CtClass`).
   */
  function Parent(h: Hierarchy, c: nat): (p: Option<nat>)
    ensures p.Some? ==> IsClass(h, p.value) && c < |h| && h[c].superclass == ClassType(p.value)
    ensures p.None? ==> c >= |h| || !h[c].superclass.ClassType? || !IsClass(h, h[c].superclass.index)
  {
    if c < |h| && h[c].superclass.ClassType? && IsClass(h, h[c].superclass.index)
    then Some(h[c].superclass.index)
    else None
  }

  /** The number of superclass steps from `c` to the end of its chain, if `fuel` steps suffice. */
  function ChainLength(h: Hierarchy, c: nat, fuel: nat): Option<nat>
    decreases fuel
  {
    if fuel == 0 then None
    else match Parent(h, c)
      case None => Some(0)
      case Some(p) =>
        match ChainLength(h, p, fuel - 1)
        case None => None
        case Some(n) => Some(n + 1)
  }

  /** The supertypes a declaration names: its superclass, when it has one, then its interfaces. */
  function NamedSupertypes(superclass: Type, interfaces: seq<Type>): seq<Type> {
    (if superclass == Absent then [] else [superclass]) + interfaces
  }

  /**
   * The supertypes Spoon reads off a type's declaration: the header of a
   * declaration of the model, the shadow of a library type on the classpath,
   * and none for any other type.
   */
  function DirectSupertypes(h: Hierarchy, t: Type): seq<Type> {
    match t
    case ClassType(i) => if i < |h| then NamedSupertypes(h[i].superclass, h[i].interfaces) else []
    case LibraryType(_, shadow) =>
      if shadow.Some? then NamedSupertypes(shadow.value.superclass, shadow.value.interfaces) else []
    case _ => []
  }

  /**
   * The number of steps of the longest walk up from `t` through superclasses
   * and interfaces, if `fuel` steps through declarations of the model suffice.
   */
  function Height(h: Hierarchy, t: Type, fuel: nat): Option<nat>
    decreases fuel, TypeSize(t)
  {
    match t
    case ClassType(i) =>
      if i >= |h| then Some(0)
      else if fuel == 0 then None
      else SupertypesHeight(h, DirectSupertypes(h, t), fuel - 1)
    case LibraryType(_, shadow) =>
      if shadow.None? then Some(0)
      else
        NamedSupertypesSize(shadow.value.superclass, shadow.value.interfaces);
        SupertypesHeight(h, DirectSupertypes(h, t), fuel)
    case _ => Some(0)
  }

  /** One more than the greatest height among `ts`; 0 for none. */
  function SupertypesHeight(h: Hierarchy, ts: seq<Type>, fuel: nat): Option<nat>
    decreases fuel, SizesSum(ts)
  {
    if ts == [] then Some(0)
    else
      match SupertypesHeight(h, ts[1..], fuel)
      case None => None
      case Some(m) =>
        match Height(h, ts[0], fuel)
        case None => None
        case Some(k) => Some(if k + 1 > m then k + 1 else m)
  }

  lemma NamedSupertypesSize(superclass: Type, interfaces: seq<Type>)
    ensures SizesSum(NamedSupertypes(superclass, interfaces)) < 2 + TypeSize(superclass) + SizesSum(interfaces)
  {
    var ts := NamedSupertypes(superclass, interfaces);
    if superclass != Absent {
      assert ts[0] == superclass && ts[1..] == interfaces;
    } else {
      assert ts == interfaces;
    }
  }

  /**
   * No declaration is its own ancestor, through superclasses or interfaces,
   * as the Java compiler guarantees.
   */
  predicate Acyclic(h: Hierarchy) {
    ChainsEnd(h) && HeightsDefined(h)
  }

  /** Every superclass chain ends within as many steps as there are declarations. */
  predicate ChainsEnd(h: Hierarchy) {
    forall c :: 0 <= c < |h| ==> ChainLength(h, c, |h|).Some?
  }

  /** Every walk up through superclasses and interfaces ends within as many model steps as there are declarations. */
  predicate HeightsDefined(h: Hierarchy) {
    forall c :: 0 <= c < |h| ==> HeightDefinedAt(h, c)
  }

  predicate HeightDefinedAt(h: Hierarchy, c: nat) {
    Height(h, ClassType(c), |h|).Some?
  }

  /** The length of the superclass chain above `c`: the measure every walk up the chain decreases. */
  function Depth(h: Hierarchy, c: nat): nat
    requires Acyclic(h)
  {
    if c < |h| then ChainLength(h, c, |h|).value else 0
  }

  lemma {:induction false} ChainLengthFuel(h: Hierarchy, c: nat, f: nat, g: nat)
    requires f <= g && ChainLength(h, c, f).Some?
    ensures ChainLength(h, c, g) == ChainLength(h, c, f)
    decreases f
  {
    match Parent(h, c)
    case None =>
    case Some(p) => ChainLengthFuel(h, p, f - 1, g - 1);
  }

  lemma ParentDepth(h: Hierarchy, c: nat)
    requires Acyclic(h) && Parent(h, c).Some?
    ensures Depth(h, Parent(h, c).value) + 1 == Depth(h, c)
  {
    var p := Parent(h, c).value;
    assert ChainLength(h, c, |h|).Some?;
    ChainLengthFuel(h, p, |h| - 1, |h|);
  }

  /** A model that lists every declaration after the declarations of the model it extends or implements has no cycle. */
  lemma SuperclassesFirstAcyclic(h: Hierarchy)
    requires SupertypesFirst(h)
    ensures Acyclic(h)
  {
    forall c | 0 <= c < |h| && Parent(h, c).Some? ensures Parent(h, c).value < c {
      assert h[c].superclass in DirectSupertypes(h, ClassType(c));
    }
    forall c | 0 <= c < |h| ensures ChainLength(h, c, |h|).Some? && HeightDefinedAt(h, c) {
      ChainBelow(h, c);
      ChainLengthFuel(h, c, c + 1, |h|);
      HeightBelow(h, c);
      HeightFuel(h, ClassType(c), c + 1, |h|);
    }
  }

  /** Every supertype a declaration names is a declaration of the model listed before it. */
  predicate SupertypesFirst(h: Hierarchy) {
    forall c :: 0 <= c < |h| ==> forall t :: t in DirectSupertypes(h, ClassType(c)) ==> t.ClassType? && t.index < c
  }

  lemma {:induction false} HeightBelow(h: Hierarchy, c: nat)
    requires SupertypesFirst(h) && c < |h|
    ensures Height(h, ClassType(c), c + 1).Some?
    decreases c, 1, 0
  {
    SupertypesBelow(h, DirectSupertypes(h, ClassType(c)), c);
  }

  lemma {:induction false} SupertypesBelow(h: Hierarchy, ts: seq<Type>, c: nat)
    requires SupertypesFirst(h) && c < |h|
    requires forall t :: t in ts ==> t.ClassType? && t.index < c
    ensures SupertypesHeight(h, ts, c).Some?
    decreases c, 0, |ts|
  {
    if ts != [] {
      assert ts[0] in ts;
      SupertypesBelow(h, ts[1..], c);
      var k := ts[0].index;
      HeightBelow(h, k);
      HeightFuel(h, ClassType(k), k + 1, c);
    }
  }

  lemma {:induction false} HeightFuel(h: Hierarchy, t: Type, f: nat, g: nat)
    requires f <= g && Height(h, t, f).Some?
    ensures Height(h, t, g) == Height(h, t, f)
    decreases f, TypeSize(t)
  {
    match t
    case ClassType(i) =>
      if i < |h| {
        SupertypesHeightFuel(h, DirectSupertypes(h, t), f - 1, g - 1);
      }
    case LibraryType(_, shadow) =>
      if shadow.Some? {
        NamedSupertypesSize(shadow.value.superclass, shadow.value.interfaces);
        SupertypesHeightFuel(h, DirectSupertypes(h, t), f, g);
      }
    case _ =>
  }

  lemma {:induction false} SupertypesHeightFuel(h: Hierarchy, ts: seq<Type>, f: nat, g: nat)
    requires f <= g && SupertypesHeight(h, ts, f).Some?
    ensures SupertypesHeight(h, ts, g) == SupertypesHeight(h, ts, f)
    decreases f, SizesSum(ts)
  {
    if ts != [] {
      SupertypesHeightFuel(h, ts[1..], f, g);
      HeightFuel(h, ts[0], f, g);
    }
  }

  lemma {:induction false} SupertypesHeightBound(h: Hierarchy, ts: seq<Type>, fuel: nat, j: nat)
    requires j < |ts| && SupertypesHeight(h, ts, fuel).Some?
    ensures Height(h, ts[j], fuel).Some? && Height(h, ts[j], fuel).value < SupertypesHeight(h, ts, fuel).value
  {
    if j > 0 {
      SupertypesHeightBound(h, ts[1..], fuel, j - 1);
      assert ts[1..][j - 1] == ts[j];
    }
  }

  /** In an acyclic model every type has a height. */
  lemma {:induction false} HeightDefined(h: Hierarchy, t: Type)
    requires Acyclic(h)
    ensures Height(h, t, |h|).Some?
    decreases TypeSize(t), 1
  {
    match t
    case LibraryType(_, shadow) =>
      if shadow.Some? {
        NamedSupertypesSize(shadow.value.superclass, shadow.value.interfaces);
        SupertypesHeightDefined(h, DirectSupertypes(h, t));
      }
    case ClassType(c) =>
      if c < |h| {
        assert HeightDefinedAt(h, c);
      }
    case _ =>
  }

  lemma {:induction false} SupertypesHeightDefined(h: Hierarchy, ts: seq<Type>)
    requires Acyclic(h)
    ensures SupertypesHeight(h, ts, |h|).Some?
    decreases SizesSum(ts), 0
  {
    if ts != [] {
      SupertypesHeightDefined(h, ts[1..]);
      HeightDefined(h, ts[0]);
    }
  }

  /** The measure every walk up through supertypes decreases. */
  ghost function Rank(h: Hierarchy, t: Type): nat
    requires Acyclic(h)
  {
    HeightDefined(h, t);
    Height(h, t, |h|).value
  }

  lemma SupertypeRank(h: Hierarchy, t: Type, u: Type)
    requires Acyclic(h) && u in DirectSupertypes(h, t)
    ensures Rank(h, u) < Rank(h, t)
  {
    var ts := DirectSupertypes(h, t);
    var j :| 0 <= j < |ts| && ts[j] == u;
    HeightDefined(h, t);
    HeightDefined(h, u);
    if t.ClassType? {
      SupertypesHeightBound(h, ts, |h| - 1, j);
      HeightFuel(h, u, |h| - 1, |h|);
    } else {
      SupertypesHeightBound(h, ts, |h|, j);
    }
  }

  lemma {:induction false} ChainBelow(h: Hierarchy, c: nat)
    requires forall c :: 0 <= c < |h| && Parent(h, c).Some? ==> Parent(h, c).value < c
    ensures ChainLength(h, c, c + 1).Some?
  {
    match Parent(h, c)
    case None =>
    case Some(p) =>
      ChainBelow(h, p);
      ChainLengthFuel(h, p, p + 1, c);
  }

  /** The classes of the model above `c` on its superclass chain, nearest first. */
  function Ancestors(h: Hierarchy, c: nat): (r: seq<nat>)
    requires Acyclic(h)
    ensures forall i :: 0 <= i < |r| ==> IsClass(h, r[i])
    decreases Depth(h, c)
  {
    match Parent(h, c)
    case None => []
    case Some(p) => ParentDepth(h, c); [p] + Ancestors(h, p)
  }

  /**
   * The superclass references met walking up from `c`: each class's superclass,
   * as long as the previous one resolved to a class of the model. The last
   * one may be a library type or unresolved.
   */
  function SuperclassRefs(h: Hierarchy, c: nat): seq<Type>
    requires Acyclic(h)
    decreases Depth(h, c)
  {
    if c >= |h| || h[c].superclass == Absent then []
    else match Parent(h, c)
      case None => [h[c].superclass]
      case Some(p) => ParentDepth(h, c); [h[c].superclass] + SuperclassRefs(h, p)
  }

  /** The strict superclass-chain relation: `a` is a class of the model above `c`. */
  predicate IsStrictAncestor(h: Hierarchy, a: nat, c: nat)
    requires Acyclic(h)
  {
    a in Ancestors(h, c)
  }

  lemma {:induction false} AncestorsBelowDepth(h: Hierarchy, c: nat, a: nat)
    requires Acyclic(h) && a in Ancestors(h, c)
    ensures Depth(h, a) < Depth(h, c)
    decreases Depth(h, c)
  {
    var p := Parent(h, c).value;
    ParentDepth(h, c);
    if a != p {
      AncestorsBelowDepth(h, p, a);
    }
  }

  /** The strict relation is irreflexive. */
  lemma NotOwnAncestor(h: Hierarchy, c: nat)
    requires Acyclic(h)
    ensures !IsStrictAncestor(h, c, c)
  {
    if c in Ancestors(h, c) {
      AncestorsBelowDepth(h, c, c);
    }
  }

  /** The strict relation is transitive. */
  lemma {:induction false} AncestorTransitive(h: Hierarchy, a: nat, b: nat, c: nat)
    requires Acyclic(h) && IsStrictAncestor(h, a, b) && IsStrictAncestor(h, b, c)
    ensures IsStrictAncestor(h, a, c)
    decreases Depth(h, c)
  {
    var p := Parent(h, c).value;
    ParentDepth(h, c);
    if b != p {
      AncestorTransitive(h, a, b, p);
    }
  }

  /** The superclass references name exactly the model classes above `c`. */
  lemma {:induction false} SuperclassRefsAncestors(h: Hierarchy, c: nat, a: nat)
    requires Acyclic(h) && IsClass(h, a)
    ensures ClassType(a) in SuperclassRefs(h, c) <==> a in Ancestors(h, c)
    decreases Depth(h, c)
  {
    match Parent(h, c)
    case None =>
    case Some(p) =>
      ParentDepth(h, c);
      SuperclassRefsAncestors(h, p, a);
  }

  /**
   * Spoon's `isSubtypeOf` for a type with a declaration: `b` is met walking up
   * from `a` through superclasses and interfaces, across declarations of the
   * model and shadow declarations of library types alike.
   */
  predicate Reaches(h: Hierarchy, a: Type, b: Type)
    requires Acyclic(h)
    decreases Rank(h, a)
  {
    var s := DirectSupertypes(h, a);
    exists i :: 0 <= i < |s| && (s[i] == b || (SupertypeRank(h, a, s[i]); Reaches(h, s[i], b)))
  }

  /**
   * The reflexive "same or subtype" relation (Spoon's `isSubtypeOf` together
   * with equality): equal types, any reference type below Object, and a type
   * below everything met walking up its superclasses and interfaces.
   */
  predicate SubtypeOrSame(h: Hierarchy, a: Type, b: Type)
    requires Acyclic(h)
  {
    a == b
    || (b == ObjectType && (a.ClassType? || a.LibraryType?))
    || Reaches(h, a, b)
  }

  /** A type is below each supertype its declaration names. */
  lemma SupertypeReached(h: Hierarchy, t: Type, u: Type)
    requires Acyclic(h) && u in DirectSupertypes(h, t)
    ensures Reaches(h, t, u)
  {
    var s := DirectSupertypes(h, t);
    var i :| 0 <= i < |s| && s[i] == u;
  }

  /** Only a type with a declaration is below anything. */
  lemma ReachesFromReference(h: Hierarchy, a: Type, b: Type)
    requires Acyclic(h) && Reaches(h, a, b)
    ensures a.ClassType? || a.LibraryType?
  {
  }

  lemma {:induction false} ReachesTransitive(h: Hierarchy, a: Type, b: Type, c: Type)
    requires Acyclic(h) && Reaches(h, a, b) && Reaches(h, b, c)
    ensures Reaches(h, a, c)
    decreases Rank(h, a)
  {
    var s := DirectSupertypes(h, a);
    var i :| 0 <= i < |s| && (s[i] == b || Reaches(h, s[i], b));
    SupertypeRank(h, a, s[i]);
    if s[i] != b {
      ReachesTransitive(h, s[i], b, c);
    }
    assert Reaches(h, s[i], c);
  }

  /** "Same or subtype" is transitive. */
  lemma SubtypeOrSameTransitive(h: Hierarchy, a: Type, b: Type, c: Type)
    requires Acyclic(h)
    requires SubtypeOrSame(h, a, b) && SubtypeOrSame(h, b, c)
    ensures SubtypeOrSame(h, a, c)
  {
    if a != b && b != c {
      if Reaches(h, a, b) {
        ReachesFromReference(h, a, b);
        if Reaches(h, b, c) {
          ReachesTransitive(h, a, b, c);
        }
      }
    }
  }

  /** A class is below every reference on its superclass chain. */
  lemma {:induction false} SuperclassRefsReached(h: Hierarchy, c: nat, t: Type)
    requires Acyclic(h) && t in SuperclassRefs(h, c)
    ensures Reaches(h, ClassType(c), t)
    decreases Depth(h, c)
  {
    var sc := h[c].superclass;
    assert sc in DirectSupertypes(h, ClassType(c));
    SupertypeReached(h, ClassType(c), sc);
    if t != sc {
      var p := Parent(h, c).value;
      ParentDepth(h, c);
      SuperclassRefsReached(h, p, t);
      ReachesTransitive(h, ClassType(c), sc, t);
    }
  }

  /**
   * `getTypeDeclaration() instanceof CtClass`: a class of the model, a
   * library type whose shadow is a class, or Object, whose shadow is a class
   * with no superclass.
   */
  predicate HasClassDeclaration(h: Hierarchy, t: Type) {
    (t.ClassType? && IsClass(h, t.index)) || (t.LibraryType? && t.shadow.Some? && !t.shadow.value.isInterface) || t.ObjectType?
  }

  /** That class declaration's `getSuperclass()`. */
  function DeclaredSuperclass(h: Hierarchy, t: Type): Type
    requires HasClassDeclaration(h, t)
  {
    match t
    case ClassType(c) => h[c].superclass
    case LibraryType(_, shadow) => shadow.value.superclass
    case ObjectType => Absent
  }

  /** That class declaration's `getSuperInterfaces()`. */
  function DeclaredInterfaces(h: Hierarchy, t: Type): seq<Type>
    requires HasClassDeclaration(h, t)
  {
    match t
    case ClassType(c) => h[c].interfaces
    case LibraryType(_, shadow) => shadow.value.interfaces
    case ObjectType => []
  }

  lemma DeclaredSuperclassRank(h: Hierarchy, t: Type)
    requires Acyclic(h) && HasClassDeclaration(h, t) && DeclaredSuperclass(h, t) != Absent
    ensures Rank(h, DeclaredSuperclass(h, t)) < Rank(h, t)
    ensures Reaches(h, t, DeclaredSuperclass(h, t))
  {
    assert DeclaredSuperclass(h, t) == DirectSupertypes(h, t)[0];
    SupertypeRank(h, t, DeclaredSuperclass(h, t));
    SupertypeReached(h, t, DeclaredSuperclass(h, t));
  }

  /**
   * The superclass references met walking up from `t` through class
   * declarations, of the model or of the classpath: each one's superclass,
   * for as long as the previous one was declared as a class.
   */
  function SuperclassChain(h: Hierarchy, t: Type): seq<Type>
    requires Acyclic(h)
    decreases Rank(h, t)
  {
    if !HasClassDeclaration(h, t) || DeclaredSuperclass(h, t) == Absent then []
    else
      DeclaredSuperclassRank(h, t);
      [DeclaredSuperclass(h, t)] + SuperclassChain(h, DeclaredSuperclass(h, t))
  }

  /** The chain holds no missing type, and `t` is below everything on it. */
  lemma {:induction false} SuperclassChainReached(h: Hierarchy, t: Type, u: Type)
    requires Acyclic(h) && u in SuperclassChain(h, t)
    ensures u != Absent && Reaches(h, t, u)
    decreases Rank(h, t)
  {
    var sc := DeclaredSuperclass(h, t);
    DeclaredSuperclassRank(h, t);
    if u != sc {
      SuperclassChainReached(h, sc, u);
      ReachesTransitive(h, t, sc, u);
    }
  }

  /** The model classes, in model order, that `a` is a strict ancestor of. */
  function Descendants(h: Hierarchy, a: nat): (r: seq<nat>)
    requires Acyclic(h)
    ensures forall i :: 0 <= i < |r| ==> r[i] < |h| && IsStrictAncestor(h, a, r[i]) && IsClass(h, r[i])
    ensures forall c :: 0 <= c < |h| && IsClass(h, c) && IsStrictAncestor(h, a, c) ==> c in r
  {
    DescendantsFromMembers(h, a, 0);
    DescendantsFrom(h, a, 0)
  }

  function DescendantsFrom(h: Hierarchy, a: nat, from: nat): seq<nat>
    requires Acyclic(h)
    decreases |h| - from
  {
    if from >= |h| then []
    else if IsClass(h, from) && IsStrictAncestor(h, a, from) then [from] + DescendantsFrom(h, a, from + 1)
    else DescendantsFrom(h, a, from + 1)
  }

  /** The scan from `from` lists exactly the classes at or after `from` that `a` is above, in increasing order. */
  lemma DescendantsFromMembers(h: Hierarchy, a: nat, from: nat)
    requires Acyclic(h)
    ensures var r := DescendantsFrom(h, a, from);
      (forall i :: 0 <= i < |r| ==> from <= r[i] < |h| && IsStrictAncestor(h, a, r[i]) && IsClass(h, r[i]))
      && (forall c :: from <= c < |h| && IsClass(h, c) && IsStrictAncestor(h, a, c) ==> c in r)
      && (forall i, j :: 0 <= i < j < |r| ==> r[i] < r[j])
  {
    var r := DescendantsFrom(h, a, from);
    DescendantsFromSound(h, a, from);
    DescendantsFromComplete(h, a, from);
    DescendantsFromIncreasing(h, a, from);
    assert forall i :: 0 <= i < |r| ==> r[i] in r;
  }

  lemma {:induction false} DescendantsFromSound(h: Hierarchy, a: nat, from: nat)
    requires Acyclic(h)
    ensures forall c :: c in DescendantsFrom(h, a, from) ==> from <= c < |h| && IsStrictAncestor(h, a, c) && IsClass(h, c)
    decreases |h| - from
  {
    if from < |h| {
      DescendantsFromSound(h, a, from + 1);
    }
  }

  lemma {:induction false} DescendantsFromComplete(h: Hierarchy, a: nat, from: nat)
    requires Acyclic(h)
    ensures forall c :: from <= c < |h| && IsClass(h, c) && IsStrictAncestor(h, a, c) ==> c in DescendantsFrom(h, a, from)
    decreases |h| - from
  {
    if from < |h| {
      DescendantsFromComplete(h, a, from + 1);
    }
  }

  lemma {:induction false} DescendantsFromIncreasing(h: Hierarchy, a: nat, from: nat)
    requires Acyclic(h)
    ensures forall i, j :: 0 <= i < j < |DescendantsFrom(h, a, from)| ==> DescendantsFrom(h, a, from)[i] < DescendantsFrom(h, a, from)[j]
    decreases |h| - from
  {
    if from < |h| {
      DescendantsFromIncreasing(h, a, from + 1);
      DescendantsFromSound(h, a, from + 1);
      var rest := DescendantsFrom(h, a, from + 1);
      if IsClass(h, from) && IsStrictAncestor(h, a, from) {
        var r := [from] + rest;
        assert DescendantsFrom(h, a, from) == r;
        forall i, j | 0 <= i < j < |r|
          ensures r[i] < r[j]
        {
          assert r[j] == rest[j - 1] && rest[j - 1] in rest;
          if i > 0 {
            assert r[i] == rest[i - 1];
          }
        }
      }
    }
  }

  /** One step of the scan: the class at `from` comes first when `a` is above it. */
  lemma DescendantsFromStep(h: Hierarchy, a: nat, from: nat)
    requires Acyclic(h) && from < |h|
    ensures DescendantsFrom(h, a, from) ==
      if IsClass(h, from) && IsStrictAncestor(h, a, from) then [from] + DescendantsFrom(h, a, from + 1)
      else DescendantsFrom(h, a, from + 1)
  {
  }


  /** The index of the first field called `name`, as `CtType.getField(name)` finds it. */
  function FieldIndex(fields: seq<Field>, name: string): (r: Option<nat>)
    ensures r.Some? ==> r.value < |fields| && fields[r.value].name == name
                        && forall j :: 0 <= j < r.value ==> fields[j].name != name
    ensures r.None? ==> forall j :: 0 <= j < |fields| ==> fields[j].name != name
  {
    if fields == [] then None
    else if fields[0].name == name then Some(0)
    else match FieldIndex(fields[1..], name)
      case None => None
      case Some(k) => Some(k + 1)
  }

  /**
   * `getFieldDeclaration()` of a field reference: the first field called
   * `name` declared in the declaring type, when that type is in the model.
   */
  function FieldDeclaration(s: State, declaring: Type, name: string): (r: Option<Field>)
    ensures r.Some? ==> declaring.ClassType? && declaring.index < |s|
                        && r.value in s[declaring.index].fields && r.value.name == name
  {
    if declaring.ClassType? && declaring.index < |s| then
      match FieldIndex(s[declaring.index].fields, name)
      case None => None
      case Some(k) => Some(s[declaring.index].fields[k])
    else None
  }

  /**
   * `getExecutableDeclaration()` of a call, when it is a method: the index of
   * the first method of the declaring type with that name and exactly those
   * parameter types. A constructor call never resolves to a method.
   */
  function MethodDeclaration(s: State, kind: CallKind, declaring: Type, name: string, paramTypes: seq<Type>): (r: Option<nat>)
    ensures r.Some? ==> kind == MethodCall && declaring.ClassType? && declaring.index < |s|
                        && r.value < |s[declaring.index].methods|
                        && s[declaring.index].methods[r.value].name == name
                        && ParamTypes(s[declaring.index].methods[r.value].params) == paramTypes
  {
    if kind == MethodCall && declaring.ClassType? && declaring.index < |s| then
      MethodWithSignature(s[declaring.index].methods, name, paramTypes)
    else None
  }

  function MethodWithSignature(methods: seq<Method>, name: string, paramTypes: seq<Type>): (r: Option<nat>)
    ensures r.Some? ==> r.value < |methods| && methods[r.value].name == name && ParamTypes(methods[r.value].params) == paramTypes
  {
    if methods == [] then None
    else if methods[0].name == name && ParamTypes(methods[0].params) == paramTypes then Some(0)
    else match MethodWithSignature(methods[1..], name, paramTypes)
      case None => None
      case Some(k) => Some(k + 1)
  }

  /** Spoon's printing of a `ModifierKind`: its keyword; `null` stands for package access. */
  function VisibilityText(v: Visibility): string {
    match v
    case None => "null"
    case Some(k) =>
      match k
      case Public => "public"
      case Protected => "protected"
      case Private => "private"
      case Abstract => "abstract"
      case Final => "final"
      case Static => "static"
  }

  /** A method of the model: declaration `cls`, method number `idx` of it. */
  datatype Pos = Pos(cls: nat, idx: nat)

  predicate ValidPos(s: State, p: Pos) {
    p.cls < |s| && p.idx < |s[p.cls].methods|
  }

  function MethodAt(s: State, p: Pos): Method
    requires ValidPos(s, p)
  {
    s[p.cls].methods[p.idx]
  }

  /** Two states with the same declarations and the same number of methods in each. */
  predicate SameShape(s: State, t: State) {
    |s| == |t| && forall c :: 0 <= c < |s| ==> |s[c].methods| == |t[c].methods|
  }

  /** Positions valid in one state are valid in any state of the same shape. */
  lemma SameShapePositions(s: State, t: State, ps: seq<Pos>)
    requires SameShape(s, t) && forall i :: 0 <= i < |ps| ==> ValidPos(s, ps[i])
    ensures forall i :: 0 <= i < |ps| ==> ValidPos(t, ps[i])
  {
  }

  /** The state after the method at `p` is edited in place to `m`. */
  function SetMethod(s: State, p: Pos, m: Method): (r: State)
    requires ValidPos(s, p)
    ensures SameShape(s, r) && ValidPos(r, p) && MethodAt(r, p) == m
    ensures forall c :: 0 <= c < |s| ==> r[c].fields == s[c].fields && r[c].isAbstract == s[c].isAbstract
    ensures forall q :: ValidPos(s, q) && q != p ==> MethodAt(r, q) == MethodAt(s, q)
  {
    s[p.cls := s[p.cls].(methods := s[p.cls].methods[p.idx := m])]
  }

  lemma SetMethodSame(s: State, p: Pos)
    requires ValidPos(s, p)
    ensures SetMethod(s, p, MethodAt(s, p)) == s
  {
    assert s[p.cls].methods[p.idx := MethodAt(s, p)] == s[p.cls].methods;
  }

  /** A second edit of the same position overrides the first. */
  lemma SetMethodTwice(s: State, p: Pos, a: Method, b: Method)
    requires ValidPos(s, p)
    ensures SetMethod(SetMethod(s, p, a), p, b) == SetMethod(s, p, b)
  {
    assert s[p.cls].methods[p.idx := a][p.idx := b] == s[p.cls].methods[p.idx := b];
  }

  /**
   * The part of the code model the refactoring edits: the declarations'
   * headers are fixed, their members change in place.
   */
  class Workspace {
    const types: Hierarchy
    var members: State

    predicate Valid()
      reads this
    {
      |members| == |types| && Acyclic(types)
    }

    constructor (types: Hierarchy, members: State)
      requires |members| == |types| && Acyclic(types)
      ensures Valid() && this.types == types && this.members == members
    {
      this.types := types;
      this.members := members;
    }
  }
}
