/**
 * The import manager: after members move into a class, the imports its compilation unit needs
 * for the types they mention are added, and broken imports are dropped first.
 */
module ImportManager {
  import opened Common

  /** A type reference as the import manager sees it; `packageName` is "" when there is no package. */
  datatype TypeRef = TypeRef(qualifiedName: string, packageName: string, isPrimitive: bool)

  /** An import declaration: the text of its reference, `None` when the reference is missing. */
  datatype Import = Import(reference: Option<string>)

  /** An import that the clean-up removes: no reference, or one mentioning `nulltype`. */
  predicate IsInvalid(imp: Import) {
    imp.reference.None? || Contains(imp.reference.value, "nulltype") || Contains(imp.reference.value, "<nulltype>")
  }

  /** The imports of `l` that survive the clean-up, in order. */
  function ValidImports(l: seq<Import>): seq<Import>
  {
    if l == [] then []
    else ValidImports(l[..|l| - 1]) + (if IsInvalid(l[|l| - 1]) then [] else [l[|l| - 1]])
  }

  /** The survivors are exactly the valid imports of `l`, and no more of them than `l` holds. */
  lemma {:induction false} ValidImportsMembers(l: seq<Import>)
    ensures forall x :: x in ValidImports(l) <==> x in l && !IsInvalid(x)
    ensures |ValidImports(l)| <= |l|
  {
    if l != [] {
      ValidImportsMembers(l[..|l| - 1]);
      assert forall x :: x in l <==> x in l[..|l| - 1] || x == l[|l| - 1];
    }
  }

  /** The reference texts of the valid imports of `l`: what the clean-up collects as existing imports. */
  function ImportNames(l: seq<Import>): set<string>
  {
    if l == [] then {}
    else
      var last := l[|l| - 1];
      ImportNames(l[..|l| - 1]) + (if IsInvalid(last) then {} else {last.reference.value})
  }

  /** The collected names are exactly the texts of the valid imports. */
  lemma {:induction false} ImportNamesMembers(l: seq<Import>)
    ensures forall n :: n in ImportNames(l) <==> exists x :: x in l && !IsInvalid(x) && x.reference.value == n
  {
    if l != [] {
      ImportNamesMembers(l[..|l| - 1]);
      assert forall x :: x in l <==> x in l[..|l| - 1] || x == l[|l| - 1];
    }
  }

  /**
   * The reasons a referenced type never needs an import: a primitive, an empty name, a
   * `java.lang.` type, a type of the class's own (non-empty) package, a nested type (`$`) or an
   * unresolved one (`nulltype`).
   */
  predicate Eligible(ref: TypeRef, currentPackage: string) {
    var q := ref.qualifiedName;
    !ref.isPrimitive && q != "" && !StartsWith(q, "java.lang.")
    && !(currentPackage != "" && currentPackage == ref.packageName)
    && !Contains(q, "$") && !Contains(q, "nulltype") && !Contains(q, "<nulltype>")
  }

  /** `shouldAddImport`: the tests in the order the manager makes them. */
  function ShouldAddImport(ref: Option<TypeRef>, currentPackage: string, existing: set<string>): (r: bool)
    ensures r <==> ref.Some? && Eligible(ref.value, currentPackage)
                   && ref.value.qualifiedName !in existing
                   && ref.value.packageName + ".*" !in existing
  {
    if ref.None? || ref.value.isPrimitive then false
    else
      var q := ref.value.qualifiedName;
      if q == "" then false
      else if StartsWith(q, "java.lang.") then false
      else if currentPackage != "" && currentPackage == ref.value.packageName then false
      else if Contains(q, "$") then false
      else if Contains(q, "nulltype") || Contains(q, "<nulltype>") then false
      else if q in existing then false
      else if ref.value.packageName + ".*" in existing then false
      else true
  }

  /**
   * The names the processing loop adds, in order, iterating the references in `refs` and
   * starting from the collected `existing` names; each added name joins the existing ones.
   */
  function Added(refs: seq<TypeRef>, currentPackage: string, existing: set<string>): (r: seq<string>)
    ensures forall i :: 0 <= i < |r| ==> r[i] !in existing
    ensures forall i, j :: 0 <= i < j < |r| ==> r[i] != r[j]
    ensures forall ref :: ref in refs && Eligible(ref, currentPackage) ==>
      ref.qualifiedName in existing || ref.qualifiedName in r
      || ref.packageName + ".*" in existing || ref.packageName + ".*" in r
  {
    if refs == [] then []
    else
      var prev := Added(refs[..|refs| - 1], currentPackage, existing);
      var last := refs[|refs| - 1];
      assert forall x :: x in refs <==> x in refs[..|refs| - 1] || x == last;
      if ShouldAddImport(Some(last), currentPackage, existing + NameSet(prev)) then prev + [last.qualifiedName]
      else prev
  }

  /** Every added name is the name of an eligible referenced type. */
  lemma {:induction false} AddedFromReferences(refs: seq<TypeRef>, currentPackage: string, existing: set<string>)
    ensures forall n :: n in Added(refs, currentPackage, existing) ==>
      exists ref :: ref in refs && Eligible(ref, currentPackage) && ref.qualifiedName == n
  {
    if refs != [] {
      AddedFromReferences(refs[..|refs| - 1], currentPackage, existing);
      assert forall x :: x in refs[..|refs| - 1] ==> x in refs;
    }
  }

  /** The import declarations created for `names`. */
  function ImportsFor(names: seq<string>): (r: seq<Import>)
    ensures |r| == |names|
    ensures forall i :: 0 <= i < |r| ==> r[i] == Import(Some(names[i]))
  {
    if names == [] then [] else [Import(Some(names[0]))] + ImportsFor(names[1..])
  }

  /** Running the processing a second time over the same references adds nothing more. */
  lemma {:induction false} AddedIdempotent(refs: seq<TypeRef>, currentPackage: string, existing: set<string>)
    ensures Added(refs, currentPackage, existing + NameSet(Added(refs, currentPackage, existing))) == []
  {
    var first := Added(refs, currentPackage, existing);
    AddedNothing(refs, refs, currentPackage, existing + NameSet(first), existing, first);
  }

  lemma {:induction false} AddedNothing(prefix: seq<TypeRef>, refs: seq<TypeRef>, currentPackage: string,
                                        after: set<string>, existing: set<string>, first: seq<string>)
    requires forall x :: x in prefix ==> x in refs
    requires first == Added(refs, currentPackage, existing)
    requires after == existing + NameSet(first)
    ensures Added(prefix, currentPackage, after) == []
  {
    if prefix != [] {
      AddedNothing(prefix[..|prefix| - 1], refs, currentPackage, after, existing, first);
      var last := prefix[|prefix| - 1];
      assert last in refs;
      assert !ShouldAddImport(Some(last), currentPackage, after + NameSet([]));
    }
  }

  /** `List.remove(Object)`: drops the first element equal to `x`, if there is one. */
  function RemoveFirst(l: seq<Import>, x: Import): (r: seq<Import>)
    ensures x !in l ==> r == l
  {
    if l == [] then [] else if l[0] == x then l[1..] else [l[0]] + RemoveFirst(l[1..], x)
  }

  /** With only valid imports before it, an invalid import is the first of its kind. */
  lemma {:induction false} RemoveAfterValid(v: seq<Import>, x: Import, rest: seq<Import>)
    requires forall y :: y in v ==> !IsInvalid(y)
    requires IsInvalid(x)
    ensures RemoveFirst(v + [x] + rest, x) == v + rest
  {
    if v != [] {
      assert (v + [x] + rest)[1..] == v[1..] + [x] + rest;
      RemoveAfterValid(v[1..], x, rest);
    } else {
      assert v + [x] + rest == [x] + rest;
    }
  }

  /** The import list after the clean-up has walked the first `i` imports of `copy`. */
  function Remaining(copy: seq<Import>, i: nat): seq<Import>
    requires i <= |copy|
  {
    ValidImports(copy[..i]) + copy[i..]
  }

  /** One step of the clean-up walk over `copy`, at position `i`. */
  lemma CleanStep(copy: seq<Import>, i: nat)
    requires i < |copy|
    ensures Remaining(copy, i) == ValidImports(copy[..i]) + [copy[i]] + copy[i + 1..]
    ensures !IsInvalid(copy[i]) ==> Remaining(copy, i + 1) == Remaining(copy, i)
    ensures IsInvalid(copy[i]) ==> Remaining(copy, i + 1) == ValidImports(copy[..i]) + copy[i + 1..]
    ensures ImportNames(copy[..i + 1])
            == ImportNames(copy[..i]) + (if IsInvalid(copy[i]) then {} else {copy[i].reference.value})
    ensures forall y :: y in ValidImports(copy[..i]) ==> !IsInvalid(y)
  {
    assert copy[..i + 1][..i] == copy[..i];
    assert copy[..i + 1][i] == copy[i];
    assert copy[i..] == [copy[i]] + copy[i + 1..];
    AppendAssoc(ValidImports(copy[..i]), [copy[i]], copy[i + 1..]);
    ValidImportsMembers(copy[..i]);
  }

  /** The compilation unit of a class: its import list. */
  class CompilationUnit {
    var imports: seq<Import>

    constructor (imports: seq<Import>)
      ensures this.imports == imports
    {
      this.imports := imports;
    }
  }

  /** `compilationUnit.getImports().remove(imp)` for an invalid import preceded only by valid ones. */
  method RemoveInvalid(cu: CompilationUnit, ghost v: seq<Import>, imp: Import, ghost tail: seq<Import>)
    requires cu.imports == v + [imp] + tail
    requires forall y :: y in v ==> !IsInvalid(y)
    requires IsInvalid(imp)
    modifies cu
    ensures cu.imports == v + tail
  {
    RemoveAfterValid(v, imp, tail);
    cu.imports := RemoveFirst(cu.imports, imp);
  }

  /**
   * `cleanAndCollectExistingImports`: walks a copy of the import list, removes each invalid
   * import from the unit and collects the text of each valid one.
   */
  method CleanAndCollectExistingImports(cu: CompilationUnit) returns (existing: set<string>)
    modifies cu
    ensures cu.imports == ValidImports(old(cu.imports))
    ensures existing == ImportNames(old(cu.imports))
  {
    var copy := cu.imports;
    existing := {};
    var i := 0;
    while i < |copy|
      invariant 0 <= i <= |copy|
      invariant cu.imports == Remaining(copy, i)
      invariant existing == ImportNames(copy[..i])
    {
      var imp := copy[i];
      CleanStep(copy, i);
      if IsInvalid(imp) {
        RemoveInvalid(cu, ValidImports(copy[..i]), imp, copy[i + 1..]);
      } else {
        existing := existing + {imp.reference.value};
      }
      i := i + 1;
    }
    assert copy[..i] == copy;
    assert copy[i..] == [];
  }

  /**
   * `processImports`: cleans the imports, then adds one for each referenced type that needs
   * it. `order` is the iteration order of the reference set.
   */
  method ProcessImports(cu: CompilationUnit, referenced: set<TypeRef>, currentPackage: string,
                        order: set<TypeRef> -> seq<TypeRef>)
    modifies cu
    ensures cu.imports == ValidImports(old(cu.imports))
                          + ImportsFor(Added(order(referenced), currentPackage, ImportNames(old(cu.imports))))
  {
    var existing := CleanAndCollectExistingImports(cu);
    existing := AddNeededImports(cu, order(referenced), currentPackage, existing);
  }

  /** The loop of `processImports`: `addImport` for each reference that `shouldAddImport` accepts. */
  method AddNeededImports(cu: CompilationUnit, refs: seq<TypeRef>, currentPackage: string, existing: set<string>)
    returns (grown: set<string>)
    modifies cu
    ensures cu.imports == old(cu.imports) + ImportsFor(Added(refs, currentPackage, existing))
    ensures grown == existing + NameSet(Added(refs, currentPackage, existing))
  {
    ghost var start := cu.imports;
    grown := existing;
    var i := 0;
    while i < |refs|
      invariant 0 <= i <= |refs|
      invariant cu.imports == start + ImportsFor(Added(refs[..i], currentPackage, existing))
      invariant grown == existing + NameSet(Added(refs[..i], currentPackage, existing))
    {
      ghost var prev := Added(refs[..i], currentPackage, existing);
      AddedStep(refs, i, currentPackage, existing);
      if ShouldAddImport(Some(refs[i]), currentPackage, grown) {
        AddImport(cu, refs[i].qualifiedName);
        grown := grown + {refs[i].qualifiedName};
      }
      i := i + 1;
    }
    assert refs[..i] == refs;
  }

  /** One step of the walk over the referenced types, at position `i`. */
  lemma AddedStep(refs: seq<TypeRef>, i: nat, currentPackage: string, existing: set<string>)
    requires i < |refs|
    ensures var prev := Added(refs[..i], currentPackage, existing);
            var q := refs[i].qualifiedName;
            if ShouldAddImport(Some(refs[i]), currentPackage, existing + NameSet(prev)) then
              Added(refs[..i + 1], currentPackage, existing) == prev + [q]
              && ImportsFor(prev + [q]) == ImportsFor(prev) + [Import(Some(q))]
              && NameSet(prev + [q]) == NameSet(prev) + {q}
            else Added(refs[..i + 1], currentPackage, existing) == prev
  {
    assert refs[..i + 1][..i] == refs[..i];
    assert refs[..i + 1][i] == refs[i];
    var prev := Added(refs[..i], currentPackage, existing);
    AppendImportsFor(prev, refs[i].qualifiedName);
    assert NameSet(prev + [refs[i].qualifiedName]) == NameSet(prev) + {refs[i].qualifiedName};
  }

  lemma AppendImportsFor(names: seq<string>, n: string)
    ensures ImportsFor(names + [n]) == ImportsFor(names) + [Import(Some(n))]
  {
  }

  /** `addImport`: one more import at the end of the list. */
  method AddImport(cu: CompilationUnit, qualifiedName: string)
    modifies cu
    ensures cu.imports == old(cu.imports) + [Import(Some(qualifiedName))]
  {
    cu.imports := cu.imports + [Import(Some(qualifiedName))];
  }

  /**
   * The `ensureMissingImports…` entry points: `target` is the compilation unit of the target
   * class (`null` when there is no target class), `hasMethod` whether a method was given, and
   * `referenced` the type references collected from the method and the other moved members.
   */
  method EnsureMissingImports(target: CompilationUnit?, hasMethod: bool, currentPackage: string,
                              referenced: set<TypeRef>, order: set<TypeRef> -> seq<TypeRef>)
    modifies target
    ensures target != null && !hasMethod ==> target.imports == old(target.imports)
    ensures target != null && hasMethod ==>
      target.imports == ValidImports(old(target.imports))
                        + ImportsFor(Added(order(referenced), currentPackage, ImportNames(old(target.imports))))
  {
    if target == null || !hasMethod {
      return;
    }
    ProcessImports(target, referenced, currentPackage, order);
  }

  /** Every import the processing adds is itself valid, so a later clean-up keeps it. */
  lemma {:induction false} AddedImportsValid(refs: seq<TypeRef>, currentPackage: string, existing: set<string>)
    ensures forall x :: x in ImportsFor(Added(refs, currentPackage, existing)) ==> !IsInvalid(x)
  {
    var names := Added(refs, currentPackage, existing);
    AddedFromReferences(refs, currentPackage, existing);
    forall x | x in ImportsFor(names) ensures !IsInvalid(x) {
      var i :| 0 <= i < |names| && ImportsFor(names)[i] == x;
      assert names[i] in names;
      var ref :| ref in refs && Eligible(ref, currentPackage) && ref.qualifiedName == names[i];
    }
  }
}
