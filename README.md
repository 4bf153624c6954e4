# Pull-up-method refactoring engine, modelled in Dafny

The system is a refactoring engine for Java sources built on the Spoon code model. Its main
operation, *pull up method*, moves a method from a class to an ancestor class. It also moves
what the method needs with it: the fields it reads or writes and the private helper methods
it calls. Before it moves anything it checks that the destination has no clashing method.
After the move it repairs what the move affects, in these steps:

- it widens visibilities;
- it adjusts a return type that names a sibling type;
- it adds casts where `this` is passed as the subclass;
- it deals with `super` calls;
- it aligns the overriding methods in the other descendants of the destination.

It then writes the changed compilation units back and adds the imports they need. It also
adds the Maven dependencies that new cross-module imports need. Before writing, it keeps a
snapshot of the files it is about to change, so that they can be restored.

The model follows the program's packages, with one module per class of the source:

- `JavaModel` is the code model. It is a fixed hierarchy of type headers (`Hierarchy`) and the
  state of their members (`State`: methods, fields and the abstract flag of each
  declaration). The class `Workspace` holds the mutable members. Methods are addressed by
  class and position (`Pos`).
- `ClassFinder`, `DependencyAnalyzer`, `MethodConflictChecker`, `VisibilityAdjuster`,
  `VisibilityHandler`, `ReturnTypeAdjuster`, `ThisCastFix`, `FieldPullUp`, `MethodPullUp` and
  `SuperCallHandler` model the finder, the analyzer, the checker, the adjusters and the
  handlers.
  - The pure parts are functions with lemmas.
  - The in-place edits are methods on a `Workspace`, with `modifies`. Each is proved to leave
    exactly the state that a specification function describes.
- `RefactoringOrchestrator` composes these steps into the whole pipeline:
  locate → prechecks → migration → alignment.
- `RefactoringResults`, `ImportManager`, `ModuleResolver`, `PomDependencyManager`,
  `SnapshotManager` and `CodeGenerator` model the utilities.
  - Import cleaning and adding acts on a `CompilationUnit` object.
  - Module and package resolution uses a `Resolver` object holding the prefix index.
  - The manifest update acts on a `Manifest` object that holds the `<dependencies>` children.
  - The snapshot directory is a `SnapshotStore` object.
  - Relative paths and overwrite planning are functions.
- `Common` holds the shared string and sequence helpers (`Trim`, `Join`, `StartsWith`, the
  de-duplication `Distinct`, set enumerations).

Spoon's equality is structural, so methods and fields are values, compared by value.

Types outside the sources, such as `java.util.ArrayList` or an interface from a library, are
`LibraryType`s. Each can carry a `Shadow`: the header Spoon's shadow model gives it, with
its kind, superclass and interfaces. The subtype relation `Reaches` is Spoon's
`isSubtypeOf`. It walks superclasses and interfaces alike, through the model's headers and
through those shadows, so a class is below an interface it implements, and `ArrayList` is
below `AbstractList`. The walks that only follow superclasses (`getSuperclass` through
declarations that are `CtClass`) use `SuperclassChain`, which also continues through
shadows.

In several places the source iterates over a `HashSet`, whose order is unspecified. There
the model takes the iteration order as a parameter: a function from the set to a sequence
that enumerates it. Every lemma holds for every such order.

User-facing messages are kept verbatim, in Chinese, as the source has them.

## Model

| member | source | states |
|---|---|---|
| JavaModel.Parent | src/main/java/com/example/refactoring/core/ClassFinder.java:60-75 | the parent found is a class of the model named by the class's superclass reference; none exactly when there is no superclass reference or it does not resolve to a class of the model |
| JavaModel.Ancestors | src/main/java/com/example/refactoring/core/RefactoringOrchestrator.java:442-446 | every ancestor listed is a class of the model |
| JavaModel.Descendants | src/main/java/com/example/refactoring/handler/FieldPullUpHandler.java:430-466 | exactly the classes of the model that the class is a strict ancestor of |
| JavaModel.DescendantsFromMembers | src/main/java/com/example/refactoring/handler/FieldPullUpHandler.java:430-444 | the scan lists exactly the classes below the ancestor from that point on, in increasing order |
| JavaModel.FieldIndex | src/main/java/com/example/refactoring/handler/FieldPullUpHandler.java:279-282 | the first field with that name, and none exactly when no field has it |
| JavaModel.FieldDeclaration | src/main/java/com/example/refactoring/handler/FieldPullUpHandler.java:148-176 | a field reference resolves to a field of its declaring class with that name |
| JavaModel.MethodDeclaration | src/main/java/com/example/refactoring/handler/MethodPullUpHandler.java:190-208 | a call resolves only when it is a method call, to a method of its declaring class with that name and exactly those parameter types |
| JavaModel.NotOwnAncestor | src/main/java/com/example/refactoring/core/RefactoringOrchestrator.java:133-136 | in an acyclic hierarchy no class is its own strict ancestor, so naming the child itself as the target is refused |
| JavaModel.AncestorTransitive | src/main/java/com/example/refactoring/core/RefactoringOrchestrator.java:133-136 | the ancestor relation is transitive: an ancestor of an ancestor is an ancestor |
| JavaModel.SupertypeReached | src/main/java/com/example/refactoring/checker/MethodConflictChecker.java:168-180 | a type is below every superclass and interface its declaration names, whether the declaration is in the model or is a library shadow |
| JavaModel.ReachesTransitive | src/main/java/com/example/refactoring/checker/MethodConflictChecker.java:168-180 | the subtype relation is transitive |
| JavaModel.SubtypeOrSameTransitive | src/main/java/com/example/refactoring/handler/FieldPullUpHandler.java:396-403 | "equal or subtype" is transitive |
| JavaModel.SuperclassChainReached | src/main/java/com/example/refactoring/adjuster/ReturnTypeAdjuster.java:315-324 | every reference met walking up superclasses through class declarations is present and is a supertype of the start |
| ClassFinder.ClassNamed | src/main/java/com/example/refactoring/core/ClassFinder.java:30-38 | the first class (interfaces skipped), in model order, whose simple or qualified name is the argument; None exactly when no class has that name |
| ClassFinder.ClassNamedFrom | src/main/java/com/example/refactoring/core/ClassFinder.java:30-38 | the scan from position `from`: the first matching class at or after it, None when none at or after it matches |
| ClassFinder.FindClass | src/main/java/com/example/refactoring/core/ClassFinder.java:30-38 | the loop returns the first class with that simple or qualified name, and None only when no class has it |
| ClassFinder.FindMethod | src/main/java/com/example/refactoring/core/ClassFinder.java:47-52 | the first declared method with that name, so the earliest overload wins; None when no method has that name |
| ClassFinder.ParentIsDirectSuperclass | src/main/java/com/example/refactoring/core/ClassFinder.java:60-75 | the direct superclass getParentClass resolves always passes isDirectSubclass's qualified-name test |
| ClassFinder.DirectSubclassIsParent | src/main/java/com/example/refactoring/core/ClassFinder.java:60-118 | with unique qualified names and a superclass declared in the model, isDirectSubclass holds for a class exactly when getParentClass resolves to it |
| ClassFinder.ChildClassesMembers | src/main/java/com/example/refactoring/core/ClassFinder.java:83-104 | the scan lists exactly the classes at or after the start that pass isDirectSubclass, in increasing model order |
| ClassFinder.ChildClassesStep | src/main/java/com/example/refactoring/core/ClassFinder.java:90-98 | one step of the scan: the class at the current position comes first exactly when it is a direct subclass |
| ClassFinder.CollectAllChildClasses | src/main/java/com/example/refactoring/core/ClassFinder.java:83-104 | the loop returns exactly the model classes that pass isDirectSubclass, in model order |
| ClassFinder.FindMatchingMethod | src/main/java/com/example/refactoring/core/ClassFinder.java:128-146 | the first method with the same name, arity and pairwise equal parameter types; None when no method matches |
| ClassFinder.MatchingMethod | src/main/java/com/example/refactoring/core/ClassFinder.java:128-146 | the first matching method, with no earlier match; None exactly when none matches |
| ClassFinder.FirstMatchUnique | src/main/java/com/example/refactoring/core/ClassFinder.java:128-146 | any answer meeting findMatchingMethod's contract is that function's answer: the first match is unique |
| ClassFinder.GetMethodNames | src/main/java/com/example/refactoring/core/ClassFinder.java:154-163 | the declared methods' names in declaration order, repeated overload names kept; empty for null |
| ClassFinder.GetClassNames | src/main/java/com/example/refactoring/core/ClassFinder.java:168-178 | the qualified names of the model's classes (interfaces skipped) in model order; empty for a null model; a name is listed exactly when some class has it |
| ClassFinder.ClassNamesMembers | src/main/java/com/example/refactoring/core/ClassFinder.java:168-178 | a name is in the listing from a position exactly when a class at or after that position has it as its qualified name |
| RefactoringResults.OrEmpty | src/main/java/com/example/refactoring/core/RefactoringResult.java:16-22 | a null list argument becomes an empty list; any other list is kept as given |
| RefactoringResults.BoolText | src/main/java/com/example/refactoring/core/RefactoringResult.java:60 | `true` prints as "true" and `false` as "false" |
| RefactoringResults.ListText | src/main/java/com/example/refactoring/core/RefactoringResult.java:64-68 | a printed list is bracketed by `[` and `]` |
| RefactoringResults.OutcomeText | src/main/java/com/example/refactoring/core/RefactoringResult.java:57-73 | the text starts with the success flag and the quoted message, ends with `}`, and is exactly those two parts plus `}` when there are no warnings and no files |
| RefactoringResults.TextShowsSuccess | src/main/java/com/example/refactoring/core/RefactoringResult.java:57-73 | two results with the same text agree on success |
| RefactoringResults.RefactoringResult.constructor | src/main/java/com/example/refactoring/core/RefactoringResult.java:16-22 | the result holds the flag and message as given, and a null warning or file list becomes an empty one |
| RefactoringResults.RefactoringResult.Success | src/main/java/com/example/refactoring/core/RefactoringResult.java:24-26 | a new result with success true, the message, the given files and no warnings |
| RefactoringResults.RefactoringResult.SuccessWithWarnings | src/main/java/com/example/refactoring/core/RefactoringResult.java:28-30 | a new result with success true, the message, the given files and the given warnings |
| RefactoringResults.RefactoringResult.Failure | src/main/java/com/example/refactoring/core/RefactoringResult.java:32-34 | a new result with success false, the message, no warnings and no files |
| RefactoringResults.RefactoringResult.GetWarnings | src/main/java/com/example/refactoring/core/RefactoringResult.java:44-46 | a copy of the warnings, which the caller cannot use to change the result |
| RefactoringResults.RefactoringResult.GetModifiedFiles | src/main/java/com/example/refactoring/core/RefactoringResult.java:48-50 | a copy of the modified files |
| RefactoringResults.RefactoringResult.AddWarning | src/main/java/com/example/refactoring/core/RefactoringResult.java:52-54 | one more warning at the end; the files do not change |
| RefactoringResults.RefactoringResult.ToString | src/main/java/com/example/refactoring/core/RefactoringResult.java:57-73 | the text begins with the success flag and the quoted message |
| DependencyAnalyzer.IsSubclassOf | src/main/java/com/example/refactoring/analyzer/DependencyAnalyzer.java:148-168 | the walk from the class's superclass up answers exactly whether the parent is a strict ancestor: the relation is strict and ends where the chain leaves the model's classes |
| DependencyAnalyzer.ScanStepFields | src/main/java/com/example/refactoring/analyzer/DependencyAnalyzer.java:51-92 | one more visited field access adds exactly the field it records, if any, to the recorded fields |
| DependencyAnalyzer.ScanStepMethods | src/main/java/com/example/refactoring/analyzer/DependencyAnalyzer.java:62-117 | one more visited call adds exactly the method it records, if any, to the recorded methods |
| DependencyAnalyzer.ScanStepIssues | src/main/java/com/example/refactoring/analyzer/DependencyAnalyzer.java:86-114 | one more visited reference adds exactly the issue it raises, if any, to the issues |
| DependencyAnalyzer.ScannedFields | src/main/java/com/example/refactoring/analyzer/DependencyAnalyzer.java:74-92 | a field is recorded exactly when some visited access's declaring type is the containing class or a strict subclass and the access resolves to that field |
| DependencyAnalyzer.ScannedMethods | src/main/java/com/example/refactoring/analyzer/DependencyAnalyzer.java:94-117 | a method is recorded exactly when some visited call's declaring type is the containing class or a strict subclass and the call resolves to that method (a constructor never does) |
| DependencyAnalyzer.ScannedIssues | src/main/java/com/example/refactoring/analyzer/DependencyAnalyzer.java:86-114 | an issue is present exactly when some visited reference raises it: a recorded private field, or any recorded method |
| DependencyAnalyzer.RecordingRule | src/main/java/com/example/refactoring/analyzer/DependencyAnalyzer.java:74-143 | a reference records a member only when its declaring type is the containing class or strictly below it; a private recorded field adds the "将自动上提" issue and a non-private one none; every recorded method adds exactly one issue, private or non-private wording |
| DependencyAnalyzer.DependencyScanner.constructor | src/main/java/com/example/refactoring/analyzer/DependencyAnalyzer.java:40-48 | a new scanner has recorded nothing and its flag is false |
| DependencyAnalyzer.DependencyScanner.IsChildClassMember | src/main/java/com/example/refactoring/analyzer/DependencyAnalyzer.java:122-143 | true exactly when the type is the containing class itself or a class the containing class is a strict ancestor of |
| DependencyAnalyzer.DependencyScanner.CheckFieldReference | src/main/java/com/example/refactoring/analyzer/DependencyAnalyzer.java:74-92 | the recorded sets grow as the field rule says, and the flag stays as it was |
| DependencyAnalyzer.DependencyScanner.CheckMethodReference | src/main/java/com/example/refactoring/analyzer/DependencyAnalyzer.java:94-117 | the recorded sets grow as the method rule says, and the flag stays as it was |
| DependencyAnalyzer.DependencyScanner.Scan | src/main/java/com/example/refactoring/analyzer/DependencyAnalyzer.java:50-72 | visiting the body's references in order records exactly what the scan specification records, and never sets the flag |
| DependencyAnalyzer.AnalyzeDependencies | src/main/java/com/example/refactoring/analyzer/DependencyAnalyzer.java:24-34 | the result carries exactly the scanner's fields, methods and issues, and canBePulledUp always holds because the flag is never set |
| MethodConflictChecker.BodiesIdenticalCases | src/main/java/com/example/refactoring/checker/MethodConflictChecker.java:106-120 | two bodies are identical exactly when both are absent or both are present with equal whitespace-normalised text; one present and one absent never match |
| MethodConflictChecker.SomePositionRelatedIff | src/main/java/com/example/refactoring/checker/MethodConflictChecker.java:151-162 | the position scan finds a pair exactly when some position holds related parameter types: equal, or one below the other through superclasses and interfaces, of the model or of library shadow declarations |
| MethodConflictChecker.AmbiguityIff | src/main/java/com/example/refactoring/checker/MethodConflictChecker.java:142-182 | two methods are confusable exactly when their parameter counts agree and some position holds types that are equal or subtypes of one another, interfaces and library supertypes included; different counts never conflict |
| MethodConflictChecker.TypeNames | src/main/java/com/example/refactoring/checker/MethodConflictChecker.java:82-97 | one type name per parameter, in order |
| MethodConflictChecker.SameSignatureIndex | src/main/java/com/example/refactoring/checker/MethodConflictChecker.java:58-65 | the index found is the first method of the destination with the same signature, and none is found only when no method has it |
| MethodConflictChecker.SameNameMethods | src/main/java/com/example/refactoring/checker/MethodConflictChecker.java:67-74 | exactly the destination's methods with that name |
| MethodConflictChecker.CheckOverloadConflict | src/main/java/com/example/refactoring/checker/MethodConflictChecker.java:125-140 | the result is NONE or CONFLICT, it is a success exactly when it is NONE, and exactly when no listed method is confusable with the pulled-up one; confusable includes parameter types related through an interface (InterfaceParameterConflicts) |
| MethodConflictChecker.NullDestination | src/main/java/com/example/refactoring/checker/MethodConflictChecker.java:25-27 | a missing destination is an ERROR failure |
| MethodConflictChecker.ConflictOutcome | src/main/java/com/example/refactoring/checker/MethodConflictChecker.java:24-53 | success exactly when NONE; DUPLICATE exactly when the first same-signature method has an identical body; NONE exactly when no method has the same signature and no same-name method is confusable; confusable includes parameter types related through an interface (InterfaceParameterConflicts) |
| MethodConflictChecker.ReturnTypeOnlyDifference | src/main/java/com/example/refactoring/checker/MethodConflictChecker.java:76-140 | a same-name method with the same parameter types but another return type is not the same signature, and with at least one parameter it is reported as a CONFLICT |
| MethodConflictChecker.ParameterlessClashAccepted | src/main/java/com/example/refactoring/checker/MethodConflictChecker.java:142-165 | as written: a parameterless same-name method that differs only in return type lets the check succeed |
| MethodConflictChecker.CheckOverloadConflictCorrected | src/main/java/com/example/refactoring/checker/MethodConflictChecker.java:125-140 | the overload scan over the corrected ambiguity test: NONE or CONFLICT, success exactly when no listed method is confusable under that test; the same subtype relation, interfaces and library supertypes included |
| MethodConflictChecker.ParameterlessClashRejected | src/main/java/com/example/refactoring/checker/MethodConflictChecker.java:142-165 | corrected: the parameterless clash is a CONFLICT |
| MethodConflictChecker.OverloadAgreesWithParameters | src/main/java/com/example/refactoring/checker/MethodConflictChecker.java:142-165 | for a pulled-up method with parameters the corrected overload scan gives the same result as the scan as written |
| MethodConflictChecker.CorrectedAgreesWithParameters | src/main/java/com/example/refactoring/checker/MethodConflictChecker.java:24-53 | the correction changes no outcome for a method with parameters, nor for a missing destination |
| MethodConflictChecker.CorrectedSafeIff | src/main/java/com/example/refactoring/checker/MethodConflictChecker.java:24-53 | corrected outcome: success exactly when NONE, and NONE exactly when no same-signature method exists and no same-name method is confusable under the corrected test; the same subtype relation, interfaces and library supertypes included |
| MethodConflictChecker.InterfaceParameterConflicts | src/main/java/com/example/refactoring/checker/MethodConflictChecker.java:142-180 | with a destination declaring `register(Listener)`, pulling up `register(Impl)` from a class implementing Listener is a CONFLICT, as written and corrected |
| VisibilityAdjuster.CurrentVisibility | src/main/java/com/example/refactoring/adjuster/VisibilityAdjuster.java:48-59 | the adjuster reads private first, then protected, then public; none of them is package access, each case in both directions |
| VisibilityAdjuster.RequiredVisibility | src/main/java/com/example/refactoring/adjuster/VisibilityAdjuster.java:64-79 | the required level is protected or public, and public exactly when the method is already public |
| VisibilityAdjuster.AdjustedModifiers | src/main/java/com/example/refactoring/adjuster/VisibilityAdjuster.java:32-89 | every non-visibility modifier is kept and only the target's keyword is present, none for public |
| VisibilityAdjuster.AdjustVisibility | src/main/java/com/example/refactoring/adjuster/VisibilityAdjuster.java:19-45 | the method is rewritten only in its modifiers, its non-visibility modifiers kept and its level raised to the required one; an adjustment is reported exactly for a private or package method, with the old and new levels, and otherwise the method is untouched |
| VisibilityAdjuster.AdjustIdempotent | src/main/java/com/example/refactoring/adjuster/VisibilityAdjuster.java:19-45 | adjusting an adjusted method reports no change and changes nothing |
| VisibilityAdjuster.NeedsVisibilityAdjustment | src/main/java/com/example/refactoring/adjuster/VisibilityAdjuster.java:91-98 | true exactly for private and package methods, which are exactly those adjustVisibility changes |
| VisibilityAdjuster.SuggestedVisibility | src/main/java/com/example/refactoring/adjuster/VisibilityAdjuster.java:100-105 | the level adjustVisibility would give the method, protected or public |
| VisibilityHandler.CurrentVisibility | src/main/java/com/example/refactoring/handler/VisibilityHandler.java:128-141 | the handler reads public first, then protected, then private; none of them is package access, each case in both directions |
| VisibilityHandler.TargetVisibility | src/main/java/com/example/refactoring/handler/VisibilityHandler.java:105-126 | the target is protected or public, and public exactly when one of the methods is public |
| VisibilityHandler.TargetNeverNarrower | src/main/java/com/example/refactoring/handler/VisibilityHandler.java:101-126 | the target is at least as wide as every visibility it was chosen from |
| VisibilityHandler.WithVisibility | src/main/java/com/example/refactoring/handler/VisibilityHandler.java:146-158 | non-visibility modifiers kept, and the set then reads as the target visibility |
| VisibilityHandler.Visibilities | src/main/java/com/example/refactoring/handler/VisibilityHandler.java:105-113 | one visibility per method, in order, each read by the handler's rule |
| VisibilityHandler.Step | src/main/java/com/example/refactoring/handler/VisibilityHandler.java:80-86 | one method of the loop: the model keeps its shape, fields and abstract flags; the effect is stated by StepAt |
| VisibilityHandler.Unify | src/main/java/com/example/refactoring/handler/VisibilityHandler.java:79-87 | the loop over the methods keeps the model's shape, fields and abstract flags; the effect is stated by UnifyAt |
| VisibilityHandler.AdjustsTransitive | src/main/java/com/example/refactoring/handler/VisibilityHandler.java:146-158 | two successive visibility-only edits to the same target compose into one |
| VisibilityHandler.StepAt | src/main/java/com/example/refactoring/handler/VisibilityHandler.java:80-86 | one step sets the stepped method to the target by a visibility-only edit and leaves every other method as it was |
| VisibilityHandler.UnifyAt | src/main/java/com/example/refactoring/handler/VisibilityHandler.java:79-87 | after the loop a listed method has the target visibility by a visibility-only edit, and any other method is untouched |
| VisibilityHandler.UnifyAtStep | src/main/java/com/example/refactoring/handler/VisibilityHandler.java:79-87 | one more turn of the loop keeps a visibility-only edit, sets the target at the position it visits and leaves every other method as it was |
| VisibilityHandler.UnifySettled | src/main/java/com/example/refactoring/handler/VisibilityHandler.java:79-87 | when every listed method already has the target, the loop changes nothing and records nothing |
| VisibilityHandler.Adjusted | src/main/java/com/example/refactoring/handler/VisibilityHandler.java:58-99 | the list overload keeps the model's shape; the effect is stated by AdjustedShareVisibility, AdjustedOnlyVisibility and AdjustedAt |
| VisibilityHandler.AdjustOne | src/main/java/com/example/refactoring/handler/VisibilityHandler.java:146-158 | one in-place edit of a method whose visibility differs, with its entry, as the step function says |
| VisibilityHandler.UnifyInPlace | src/main/java/com/example/refactoring/handler/VisibilityHandler.java:79-87 | the in-place loop leaves the model and its entries as the loop function says |
| VisibilityHandler.AdjustMethodVisibility | src/main/java/com/example/refactoring/handler/VisibilityHandler.java:58-99 | the in-place adjustment computes the target first and leaves the model and result the specification gives |
| VisibilityHandler.AdjustedShareVisibility | src/main/java/com/example/refactoring/handler/VisibilityHandler.java:58-99 | afterwards the declaration and every counterpart carry the target visibility, and no other method changes |
| VisibilityHandler.AdjustedOnlyVisibility | src/main/java/com/example/refactoring/handler/VisibilityHandler.java:58-99 | the adjustment touches modifiers only: each method keeps everything else, every non-visibility modifier stays, and fields and abstract flags are untouched |
| VisibilityHandler.AdjustedAt | src/main/java/com/example/refactoring/handler/VisibilityHandler.java:58-99 | at any one position: a visibility-only edit, to the target at the declaration and its counterparts, none elsewhere |
| VisibilityHandler.TargetOfSettled | src/main/java/com/example/refactoring/handler/VisibilityHandler.java:105-126 | visibilities that all equal protected or public lead back to that level |
| VisibilityHandler.AdjustRerun | src/main/java/com/example/refactoring/handler/VisibilityHandler.java:58-99 | running the adjustment again on its own outcome changes nothing and records no adjustment |
| VisibilityHandler.SettledRerun | src/main/java/com/example/refactoring/handler/VisibilityHandler.java:58-99 | over methods that already share protected or public, the adjustment changes nothing and records nothing |
| VisibilityHandler.ValidateMethodExistsInAllChildClasses | src/main/java/com/example/refactoring/handler/VisibilityHandler.java:162-200 | true exactly when every listed class declares a method with that name and those parameter types |
| VisibilityHandler.WithOverride | src/main/java/com/example/refactoring/handler/VisibilityHandler.java:215-260 | the method then has an Override annotation, only its annotations change, and the annotation is appended exactly when none was there |
| VisibilityHandler.WithOverrideIdempotent | src/main/java/com/example/refactoring/handler/VisibilityHandler.java:215-260 | adding Override twice is adding it once; the number of Override annotations grows by at most one |
| VisibilityHandler.AddOverrideAnnotationProperly | src/main/java/com/example/refactoring/handler/VisibilityHandler.java:205-213 | the in-place edit replaces the method at that position by its annotated version and nothing else |
| ReturnTypeAdjuster.Siblings | src/main/java/com/example/refactoring/adjuster/ReturnTypeAdjuster.java:114-133 | every sibling found is one of the classes scanned |
| ReturnTypeAdjuster.SiblingsMembers | src/main/java/com/example/refactoring/adjuster/ReturnTypeAdjuster.java:114-133 | a class is listed exactly when it is a class of the model other than the origin whose superclass chain, followed through class declarations of the model and of library shadows, meets the destination |
| ReturnTypeAdjuster.FindSiblingClasses | src/main/java/com/example/refactoring/adjuster/ReturnTypeAdjuster.java:114-133 | the loop over the model's types, testing each with `IsSubclassOf`, yields exactly the sibling list of the specification (membership stated by SiblingsMembers) |
| ReturnTypeAdjuster.IsSubtypeOf | src/main/java/com/example/refactoring/adjuster/ReturnTypeAdjuster.java:229-241 | true exactly when both types are declared as classes, of the model or of the classpath, and the second is on the first one's superclass chain |
| ReturnTypeAdjuster.IsSubclassOf | src/main/java/com/example/refactoring/adjuster/ReturnTypeAdjuster.java:138-156 | the walk answers true exactly when the parent is met on the child's superclass chain, which continues through class declarations of the model and of library shadows |
| ReturnTypeAdjuster.HasConflictingReturnType | src/main/java/com/example/refactoring/adjuster/ReturnTypeAdjuster.java:204-224 | two return types clash exactly when both are present, differ, and neither is a subtype of the other |
| ReturnTypeAdjuster.HasSameParameters | src/main/java/com/example/refactoring/adjuster/ReturnTypeAdjuster.java:184-199 | equal arity and equal types position by position |
| ReturnTypeAdjuster.ConflictsAmong | src/main/java/com/example/refactoring/adjuster/ReturnTypeAdjuster.java:166-176 | exactly the methods of the class that have the target's name and parameters and a clashing return type |
| ReturnTypeAdjuster.ConflictingMethods | src/main/java/com/example/refactoring/adjuster/ReturnTypeAdjuster.java:161-179 | a method is collected exactly when it belongs to one of the sibling classes and clashes with the target |
| ReturnTypeAdjuster.FindConflictingMethods | src/main/java/com/example/refactoring/adjuster/ReturnTypeAdjuster.java:161-179 | the nested loops yield exactly the collected clashing methods, class by class |
| ReturnTypeAdjuster.Elements | src/main/java/com/example/refactoring/adjuster/ReturnTypeAdjuster.java:251-254 | the set of return types holds exactly the listed types |
| ReturnTypeAdjuster.GetAllSuperTypes | src/main/java/com/example/refactoring/adjuster/ReturnTypeAdjuster.java:306-334 | for a type declared as a class, of the model or by a library shadow, the walk up the superclass chain plus the direct interfaces yields exactly the specified supertype set; nothing for any other type |
| ReturnTypeAdjuster.Intersected | src/main/java/com/example/refactoring/adjuster/ReturnTypeAdjuster.java:284-294 | a supertype survives the intersections exactly when it is a supertype of the first type and of every other type scanned so far |
| ReturnTypeAdjuster.FirstNotObject | src/main/java/com/example/refactoring/adjuster/ReturnTypeAdjuster.java:297-300 | the choice is a listed non-Object type, and Object only when every listed type is Object |
| ReturnTypeAdjuster.FindCommonSuperType | src/main/java/com/example/refactoring/adjuster/ReturnTypeAdjuster.java:273-301 | the method's answer is the specified common supertype for that iteration order |
| ReturnTypeAdjuster.IntersectSuperTypes | src/main/java/com/example/refactoring/adjuster/ReturnTypeAdjuster.java:284-294 | the loop leaves exactly the intersected supertype set |
| ReturnTypeAdjuster.ReturnTypes | src/main/java/com/example/refactoring/adjuster/ReturnTypeAdjuster.java:253 | one return type per method, in order |
| ReturnTypeAdjuster.FindCompatibleReturnType | src/main/java/com/example/refactoring/adjuster/ReturnTypeAdjuster.java:246-268 | the answer is the specified compatible type and is never missing: the common supertype, or Object |
| ReturnTypeAdjuster.CollectReturnTypes | src/main/java/com/example/refactoring/adjuster/ReturnTypeAdjuster.java:250-254 | the collected set holds the method's return type and each clashing method's |
| ReturnTypeAdjuster.ReturnTypesStep | src/main/java/com/example/refactoring/adjuster/ReturnTypeAdjuster.java:253 | one more method adds exactly its return type to the collected set |
| ReturnTypeAdjuster.RetypeLocals | src/main/java/com/example/refactoring/adjuster/ReturnTypeAdjuster.java:355-361 | one element per body element, each local of the old return type retyped |
| ReturnTypeAdjuster.AdjustReturnTypeForPullUp | src/main/java/com/example/refactoring/adjuster/ReturnTypeAdjuster.java:60-109 | the result and the copy are those of the specification; when no adjustment is made the copy is unchanged, and a missing or primitive return type is never adjusted |
| ReturnTypeAdjuster.ConflictingSiblingMethods | src/main/java/com/example/refactoring/adjuster/ReturnTypeAdjuster.java:72-179 | a method is collected exactly when some sibling class declares it and it clashes with the target |
| ReturnTypeAdjuster.AdjustmentBranches | src/main/java/com/example/refactoring/adjuster/ReturnTypeAdjuster.java:60-109 | an adjustment happens exactly for a reference return type with clashing sibling methods, and then carries the formatted message, the old and new types, and the retyped copy |
| ReturnTypeAdjuster.AdjustedIffConflict | src/main/java/com/example/refactoring/adjuster/ReturnTypeAdjuster.java:60-109 | the copy is adjusted exactly when its return type is a reference type and another subclass of the destination declares a method with the same name and parameters whose return type clashes |
| ReturnTypeAdjuster.AdjustedCopy | src/main/java/com/example/refactoring/adjuster/ReturnTypeAdjuster.java:339-365 | an adjustment sets the copy's return type to the reported one and retypes exactly the locals declared with the old type; everything else in the copy is kept |
| ReturnTypeAdjuster.CommonSuperTypeShared | src/main/java/com/example/refactoring/adjuster/ReturnTypeAdjuster.java:273-301 | with two or more types, the answer is shared by all of them unless it is Object, which is chosen only when no other supertype of the first type is shared |
| ReturnTypeAdjuster.SuperTypesPresent | src/main/java/com/example/refactoring/adjuster/ReturnTypeAdjuster.java:306-334 | the supertype set never holds a missing type, when no declaration it reads lists one among its interfaces |
| ReturnTypeAdjuster.CompatibleIsShared | src/main/java/com/example/refactoring/adjuster/ReturnTypeAdjuster.java:246-268 | for clashing return types, the compatible type is a supertype of each of them, or Object when nothing else is shared |
| ReturnTypeAdjuster.AdjustedTypeIsShared | src/main/java/com/example/refactoring/adjuster/ReturnTypeAdjuster.java:246-301 | the new return type is a supertype shared by the copy's old type and every clashing type; Object only when nothing else is shared |
| ReturnTypeAdjuster.SharedSupertypeChosen | src/main/java/com/example/refactoring/adjuster/ReturnTypeAdjuster.java:273-301 | types whose only supertype is the same class have that class as their common supertype |
| ReturnTypeAdjuster.SharedSingleSuperType | src/main/java/com/example/refactoring/adjuster/ReturnTypeAdjuster.java:284-294 | when every type has the same single supertype, that is all they share |
| ReturnTypeAdjuster.ShapesConflict | src/test/java/com/example/refactoring/ReturnTypeAdjustmentTest.java:78-128 | in the shapes example RectShape is the one sibling and its clone() the one clash |
| ReturnTypeAdjuster.ShapesCompatible | src/test/java/com/example/refactoring/ReturnTypeAdjustmentTest.java:31-60 | EllipseShape and RectShape reconcile to BaseShape |
| ReturnTypeAdjuster.ShapesCloneReturnsBase | src/test/java/com/example/refactoring/ReturnTypeAdjustmentTest.java:31-70 | pulling EllipseShape.clone() up to BaseShape makes the copy return BaseShape, with its local redeclared as BaseShape, whatever the set iteration order |
| ReturnTypeAdjuster.ShapesAdjustedCopy | src/test/java/com/example/refactoring/ReturnTypeAdjustmentTest.java:93-103 | the message names the two classes, and the retyped body declares its local as BaseShape |
| ReturnTypeAdjuster.ListSuperTypes | src/main/java/com/example/refactoring/adjuster/ReturnTypeAdjuster.java:306-334 | the supertypes of ArrayList and LinkedList are read from their library shadows: AbstractList, and AbstractSequentialList with AbstractList |
| ReturnTypeAdjuster.ListsShare | src/main/java/com/example/refactoring/adjuster/ReturnTypeAdjuster.java:273-301 | the common supertype of ArrayList and LinkedList is AbstractList in either iteration order |
| ReturnTypeAdjuster.ListsCompatible | src/main/java/com/example/refactoring/adjuster/ReturnTypeAdjuster.java:246-268 | clashing return types ArrayList and LinkedList reconcile to AbstractList |
| ReturnTypeAdjuster.AdjustedTo | src/main/java/com/example/refactoring/adjuster/ReturnTypeAdjuster.java:60-109 | with a sibling clash and a compatible type, the copy is adjusted to that type |
| ThisCastFix.FixedArgs | src/main/java/com/example/refactoring/handler/ThisCastFixHandler.java:32-52 | the argument list keeps its length; which arguments change is stated by FixedArgsIff |
| ThisCastFix.TryFixArguments | src/main/java/com/example/refactoring/handler/ThisCastFixHandler.java:32-52 | the loop over the arguments yields exactly the specified fixed list |
| ThisCastFix.FixedElems | src/main/java/com/example/refactoring/handler/ThisCastFixHandler.java:19-31 | each body element is fixed on its own, in order |
| ThisCastFix.FixThisCastsForPulledUpMethod | src/main/java/com/example/refactoring/handler/ThisCastFixHandler.java:16-67 | the in-body scan yields exactly the specified fixed method |
| ThisCastFix.FixedArgsIff | src/main/java/com/example/refactoring/handler/ThisCastFixHandler.java:34-62 | an argument is replaced exactly when the lengths match, it is this, and the parameter type accepts the origin but not the destination; the replacement is the cast to the origin's qualified name |
| ThisCastFix.FixKeepsShape | src/main/java/com/example/refactoring/handler/ThisCastFixHandler.java:16-67 | only call arguments change: name, parameters, return type, modifiers, annotations, thrown types and body text are kept, and each element keeps its kind |
| ThisCastFix.FixIdempotent | src/main/java/com/example/refactoring/handler/ThisCastFixHandler.java:16-67 | fixing twice is fixing once |
| ThisCastFix.NoCastForDestinationTypes | src/main/java/com/example/refactoring/handler/ThisCastFixHandler.java:44-45 | an argument for a parameter typed as the destination or one of its ancestors never gets the cast |
| ThisCastFix.UtilUseGetsCast | src/test/java/com/example/refactoring/ThisCastFixTest.java:31-53 | in the ChildH example the this argument of Util.use becomes the cast to test.ChildH and the literal stays |
| ThisCastFix.InterfaceParameterCast | src/main/java/com/example/refactoring/handler/ThisCastFixHandler.java:40-50 | `this` passed to a Listener parameter by a class implementing Listener gets the cast when the destination does not implement Listener, and stays when it does |
| FieldPullUp.PathBelow | src/main/java/com/example/refactoring/handler/FieldPullUpHandler.java:497-521 | the path holds only ancestors of the class and never the destination |
| FieldPullUp.IsTypeBetweenDescendantAndAncestor | src/main/java/com/example/refactoring/handler/FieldPullUpHandler.java:178-207 | the walk from the descendant's superclass answers exactly the specified between-test |
| FieldPullUp.DependentFields | src/main/java/com/example/refactoring/handler/FieldPullUpHandler.java:132-176 | a field is recorded exactly when some scanned element records it |
| FieldPullUp.DependentFieldsStep | src/main/java/com/example/refactoring/handler/FieldPullUpHandler.java:137-147 | one more element adds exactly the field it records, if any |
| FieldPullUp.CollectDependentFields | src/main/java/com/example/refactoring/handler/FieldPullUpHandler.java:132-176 | the scan over the method's body yields exactly the specified field set |
| FieldPullUp.ValidateFieldsCanBePulledUp | src/main/java/com/example/refactoring/handler/FieldPullUpHandler.java:209-274 | the method's result and allowed set are those of the validation specification |
| FieldPullUp.ValidationVerdict | src/main/java/com/example/refactoring/handler/FieldPullUpHandler.java:242-273 | from the scan's warnings and blocked map to exactly the specified result and allowed set |
| FieldPullUp.ScanOutcome | src/main/java/com/example/refactoring/handler/FieldPullUpHandler.java:214-249 | for any iteration order, the blocked map's keys are exactly the blocked fields with their reasons, and the rest are exactly the allowed ones; nothing blocked means every field is allowed |
| FieldPullUp.ScanFields | src/main/java/com/example/refactoring/handler/FieldPullUpHandler.java:214-240 | the loop yields the private-field warnings in order and each blocked field with its reason |
| FieldPullUp.UnblockedFields | src/main/java/com/example/refactoring/handler/FieldPullUpHandler.java:244-249 | the fields without an entry in the blocked map |
| FieldPullUp.ReasonsInOrder | src/main/java/com/example/refactoring/handler/FieldPullUpHandler.java:257-260 | the blocked fields' reasons, in the map's iteration order |
| FieldPullUp.BlockMapEntries | src/main/java/com/example/refactoring/handler/FieldPullUpHandler.java:221-236 | a field has an entry exactly when it was scanned and is blocked, and the entry is its reason |
| FieldPullUp.BlockedKeys | src/main/java/com/example/refactoring/handler/FieldPullUpHandler.java:214-240 | after the whole scan the map's keys are exactly the blocked fields, each with its reason |
| FieldPullUp.Unblocked | src/main/java/com/example/refactoring/handler/FieldPullUpHandler.java:244-249 | exactly the scanned fields that are not blocked |
| FieldPullUp.AllowedFromKeys | src/main/java/com/example/refactoring/handler/FieldPullUpHandler.java:242-253 | the unblocked fields of the scan are exactly the allowed ones |
| FieldPullUp.NoneBlocked | src/main/java/com/example/refactoring/handler/FieldPullUpHandler.java:242-253 | with nothing blocked every field is allowed |
| FieldPullUp.ClimbToCommon | src/main/java/com/example/refactoring/handler/FieldPullUpHandler.java:410-424 | the walk never yields a missing type; it climbs through class declarations of the model and of library shadows (where it meets is stated by ClimbAccepts) |
| FieldPullUp.FindCommonSuperType | src/main/java/com/example/refactoring/handler/FieldPullUpHandler.java:405-425 | the method's answer is the specified climb from the first type |
| FieldPullUp.FirstTypedField | src/main/java/com/example/refactoring/handler/FieldPullUpHandler.java:362-367 | the type found, when one is, is present |
| FieldPullUp.CollectAllDescendantClasses | src/main/java/com/example/refactoring/handler/FieldPullUpHandler.java:430-466 | exactly the model's classes below the ancestor, in model order |
| FieldPullUp.AdjustFieldTypeForAllDescendants | src/main/java/com/example/refactoring/handler/FieldPullUpHandler.java:349-394 | the lifted field changes only in its type, to the specified adjusted type |
| FieldPullUp.AppendDescendantFieldTypes | src/main/java/com/example/refactoring/handler/FieldPullUpHandler.java:361-368 | each descendant's first typed same-named field type is appended, in order |
| FieldPullUp.FindTypedField | src/main/java/com/example/refactoring/handler/FieldPullUpHandler.java:362-367 | the inner scan finds the first typed field of that name |
| FieldPullUp.WidenAll | src/main/java/com/example/refactoring/handler/FieldPullUpHandler.java:372-387 | the fold over the collected types yields exactly the specified widened type |
| FieldPullUp.LiftedField | src/main/java/com/example/refactoring/handler/FieldPullUpHandler.java:302-325 | the clone keeps the field's name; its modifiers are stated by LiftedModifiersRules and its type by AdjustedTypeAccepts |
| FieldPullUp.WithoutFirst | src/main/java/com/example/refactoring/handler/FieldPullUpHandler.java:331 | removing the field takes exactly one occurrence of it out |
| FieldPullUp.SetFields | src/main/java/com/example/refactoring/handler/FieldPullUpHandler.java:328-331 | replacing one class's fields keeps the number of classes; what changes is stated by ShadowsRemovedEffect and SingleFieldPullUpEffect |
| FieldPullUp.ShadowsRemoved | src/main/java/com/example/refactoring/handler/FieldPullUpHandler.java:497-525 | the walk keeps the number of classes; which fields go is stated by ShadowsRemovedEffect |
| FieldPullUp.SingleFieldPullUp | src/main/java/com/example/refactoring/handler/FieldPullUpHandler.java:299-342 | moving one field keeps the number of classes, and the clone keeps the field's name; the whole effect is stated by SingleFieldPullUpEffect |
| FieldPullUp.RemoveShadowingFieldsAlongPath | src/main/java/com/example/refactoring/handler/FieldPullUpHandler.java:497-525 | the in-place walk leaves exactly the specified members |
| FieldPullUp.PullUpSingleField | src/main/java/com/example/refactoring/handler/FieldPullUpHandler.java:299-342 | the in-place move leaves exactly the specified members and returns the specified clone |
| FieldPullUp.FieldsPulledUp | src/main/java/com/example/refactoring/handler/FieldPullUpHandler.java:97-111 | moving the fields one after the other keeps the number of classes and returns one clone per field, named like it |
| FieldPullUp.PullUpDependentFields | src/main/java/com/example/refactoring/handler/FieldPullUpHandler.java:64-126 | the in-place step leaves exactly the specified members and result |
| FieldPullUp.PathBelowBetween | src/main/java/com/example/refactoring/handler/FieldPullUpHandler.java:497-521 | below a destination on the chain, the path holds exactly the classes strictly between the two |
| FieldPullUp.DependentFieldsIff | src/main/java/com/example/refactoring/handler/FieldPullUpHandler.java:132-207 | a field is dependent exactly when the body reads or writes it through a reference declared in the origin or in a class strictly between the origin and the destination |
| FieldPullUp.DestinationFieldsExcluded | src/main/java/com/example/refactoring/handler/FieldPullUpHandler.java:148-176 | a reference declared by the destination itself never makes a field dependent |
| FieldPullUp.ValidationOutcome | src/main/java/com/example/refactoring/handler/FieldPullUpHandler.java:209-274 | exactly the fields the destination has no same-named field for and whose type resolves are allowed; allowed and blocked partition the fields; failure exactly when none is allowed, success reports the two counts |
| FieldPullUp.ValidationFailureReasons | src/main/java/com/example/refactoring/handler/FieldPullUpHandler.java:255-266 | a failed validation's message lists every blocked field's reason once and nothing else |
| FieldPullUp.IssueAt | src/main/java/com/example/refactoring/handler/FieldPullUpHandler.java:257-260 | each blocked field scanned contributes its reason |
| FieldPullUp.IssueFrom | src/main/java/com/example/refactoring/handler/FieldPullUpHandler.java:257-260 | each reason listed comes from a scanned blocked field |
| FieldPullUp.LiftedModifiersRules | src/main/java/com/example/refactoring/handler/FieldPullUpHandler.java:305-318 | a private field arrives protected; a cross-module move makes it public and neither private nor protected; otherwise modifiers are kept; non-visibility modifiers are always kept |
| FieldPullUp.ClimbAccepts | src/main/java/com/example/refactoring/handler/FieldPullUpHandler.java:405-425 | the climb meets at a type both inputs are below, unless it falls back to Object |
| FieldPullUp.WidenedAcceptsAll | src/main/java/com/example/refactoring/handler/FieldPullUpHandler.java:372-387 | the fold ends at a type every collected reference type is a subtype of or equal to |
| FieldPullUp.WidenAccepts | src/main/java/com/example/refactoring/handler/FieldPullUpHandler.java:372-387 | one step of the fold ends at a type the new type is below, and the type so far too unless the step falls back to Object |
| FieldPullUp.AdjustedTypeAccepts | src/main/java/com/example/refactoring/handler/FieldPullUpHandler.java:349-394 | the lifted field's adjusted type accepts its own type and every descendant's same-named field type |
| FieldPullUp.ShadowsRemovedEffect | src/main/java/com/example/refactoring/handler/FieldPullUpHandler.java:497-525 | the classes strictly between lose their first field of that name; every other class, and all methods and abstract flags, stay the same |
| FieldPullUp.NotInOwnPath | src/main/java/com/example/refactoring/handler/FieldPullUpHandler.java:499 | the walk starts above the class, so the class is never on its own path |
| FieldPullUp.SingleFieldPullUpEffect | src/main/java/com/example/refactoring/handler/FieldPullUpHandler.java:299-342 | the destination gains the clone at the end, the origin loses the field, each class strictly between loses its first same-named field, and nothing else changes |
| FieldPullUp.DependentFieldsPullUpOutcome | src/main/java/com/example/refactoring/handler/FieldPullUpHandler.java:64-126 | with no dependent field, or a failed validation, nothing changes; otherwise every allowed field is moved once, in iteration order, and the count is reported |
| FieldPullUp.NamesExtend | src/main/java/com/example/refactoring/handler/FieldPullUpHandler.java:97-111 | clones named after their fields stay so when one more field is moved |
| FieldPullUp.ViewsAdjustedType | src/test/java/com/example/refactoring/MethodAndFieldTypeAdjustmentTest.java:68-96 | ViewA and ViewB share only Object, so the adjusted type of f is Object |
| FieldPullUp.ViewFieldBecomesObject | src/test/java/com/example/refactoring/MethodAndFieldTypeAdjustmentTest.java:68-96 | moving ChildG1.f to BaseG gives BaseG a public f of type Object, ChildG1 loses its f and ChildG2 keeps its own |
| MethodPullUp.Prefixed | src/main/java/com/example/refactoring/handler/MethodPullUpHandler.java:112-147 | each warning carries the prefix in front, in order |
| MethodPullUp.CalledChildMethod | src/main/java/com/example/refactoring/handler/MethodPullUpHandler.java:190-208 | a called method found is one of the origin's methods |
| MethodPullUp.CalledMethods | src/main/java/com/example/refactoring/handler/MethodPullUpHandler.java:177-211 | a method is collected exactly when some scanned reference calls it through the origin and resolves to one of the origin's methods |
| MethodPullUp.CollectDependentMethods | src/main/java/com/example/refactoring/handler/MethodPullUpHandler.java:174-212 | corrected collection: exactly the origin's methods the body calls, the method being pulled up never among them |
| MethodPullUp.CalledStep | src/main/java/com/example/refactoring/handler/MethodPullUpHandler.java:179-188 | one more reference adds exactly the origin's method it calls, if any |
| MethodPullUp.BlockingIssuesEmpty | src/main/java/com/example/refactoring/handler/MethodPullUpHandler.java:263-295 | no blocking issue exactly when the destination declares none of the dependencies by name and parameter types |
| MethodPullUp.ValidationWarnings | src/main/java/com/example/refactoring/handler/MethodPullUpHandler.java:270-274 | one warning per dependency |
| MethodPullUp.ValidateMethodsCanBePulledUp | src/main/java/com/example/refactoring/handler/MethodPullUpHandler.java:259-286 | the loop yields exactly the specified validation result |
| MethodPullUp.AbstractDeclaration | src/main/java/com/example/refactoring/handler/MethodPullUpHandler.java:300-384 | the abstract declaration copies name, return type, parameters and thrown types; final and static dropped, private becomes protected, abstract added; no annotations and no body |
| MethodPullUp.KeptInChild | src/main/java/com/example/refactoring/handler/MethodPullUpHandler.java:329-342 | the origin keeps its method, a private one made protected, with Override added; nothing else changes |
| MethodPullUp.SingleMethodPullUp | src/main/java/com/example/refactoring/handler/MethodPullUpHandler.java:300-352 | the destination becomes abstract and gets the declaration at its end, the origin's method is replaced by its adjusted form, and every other method and all fields stay the same |
| MethodPullUp.PullUpSingleMethodAsAbstract | src/main/java/com/example/refactoring/handler/MethodPullUpHandler.java:300-352 | the in-place edit leaves exactly the specified members and returns the specified declaration |
| MethodPullUp.CorrespondingMethods | src/main/java/com/example/refactoring/handler/MethodPullUpHandler.java:217-237 | at most one method per class, each the first method of its class with that name and those parameter types |
| MethodPullUp.CollectCorrespondingMethodsInAllChildClasses | src/main/java/com/example/refactoring/handler/MethodPullUpHandler.java:217-237 | the nested loops yield exactly the specified positions |
| MethodPullUp.PullUpStep | src/main/java/com/example/refactoring/handler/MethodPullUpHandler.java:95-126 | one dependency pulled up: every signature kept, one abstract declaration with its signature added at the destination's end, the destination abstract, and abstract flags kept consistent |
| MethodPullUp.AppendedGrows | src/main/java/com/example/refactoring/handler/MethodPullUpHandler.java:95-126 | one more pull-up keeps every signature, appends a declaration with the dependency's signature, and keeps abstract flags consistent |
| MethodPullUp.MethodsAt | src/main/java/com/example/refactoring/handler/MethodPullUpHandler.java:98-99 | the returned declarations are the destination's methods at the recorded positions, as they are now |
| MethodPullUp.DependentMethodsPullUp | src/main/java/com/example/refactoring/handler/MethodPullUpHandler.java:69-168 | the step keeps the number of classes; the effect is stated by PullUpFailsOnlyOnClash, PullUpDeclaresDependencies and SucceededWithDependents |
| MethodPullUp.PullUpOne | src/main/java/com/example/refactoring/handler/MethodPullUpHandler.java:96-118 | one iteration in place leaves exactly the specified members and warnings |
| MethodPullUp.PullUpNext | src/main/java/com/example/refactoring/handler/MethodPullUpHandler.java:95-126 | the loop body in place additionally records the declaration's position and the warnings |
| MethodPullUp.PullUpAbstracts | src/main/java/com/example/refactoring/handler/MethodPullUpHandler.java:95-126 | the in-place loop over the dependencies leaves exactly the specified members, positions and warnings |
| MethodPullUp.HandleDependentSuperCalls | src/main/java/com/example/refactoring/handler/MethodPullUpHandler.java:129-150 | the in-place super-call loop leaves exactly the specified members and warnings |
| MethodPullUp.PullUpDependentMethods | src/main/java/com/example/refactoring/handler/MethodPullUpHandler.java:69-168 | the in-place step leaves exactly the specified members and result |
| MethodPullUp.DependentsValid | src/main/java/com/example/refactoring/handler/MethodPullUpHandler.java:95 | the dependencies, in any iteration order, are methods of the origin |
| MethodPullUp.SingleMethodPullUpKeeps | src/main/java/com/example/refactoring/handler/MethodPullUpHandler.java:300-352 | pulling one method up keeps every signature, adds an abstract declaration with its signature and keeps other classes' abstract methods |
| MethodPullUp.AdjustedKeeps | src/main/java/com/example/refactoring/handler/MethodPullUpHandler.java:105-118 | unifying visibilities keeps every signature, abstract flag and method's abstractness |
| MethodPullUp.FlagsKept | src/main/java/com/example/refactoring/handler/MethodPullUpHandler.java:320-323 | no class loses its abstract flag while it has an abstract method when only the abstract destination changed |
| MethodPullUp.SuperCallHandlingKeeps | src/main/java/com/example/refactoring/handler/MethodPullUpHandler.java:132-135 | handling one method's super calls keeps every signature and the consistency of abstract flags |
| MethodPullUp.BlockingIssuesWitness | src/main/java/com/example/refactoring/handler/MethodPullUpHandler.java:263-279 | blocking issues exist exactly when some dependency is declared by the destination |
| MethodPullUp.PullUpFailsOnlyOnClash | src/main/java/com/example/refactoring/handler/MethodPullUpHandler.java:69-90 | the step fails exactly when the destination already declares a method with the name and parameter types of a dependency; then, and when there is no dependency, nothing changes |
| MethodPullUp.PullUpDeclaresDependencies | src/main/java/com/example/refactoring/handler/MethodPullUpHandler.java:95-162 | a successful step with dependencies returns one declaration per dependency, matching them one for one by signature |
| MethodPullUp.PullUpKeepsSignatures | src/main/java/com/example/refactoring/handler/MethodPullUpHandler.java:69-168 | whatever the outcome, every method of the model keeps its place and signature |
| MethodPullUp.SucceededWithDependents | src/main/java/com/example/refactoring/handler/MethodPullUpHandler.java:95-158 | a successful step with dependencies is the pull-up of them in iteration order |
| MethodPullUp.MatchedOneForOne | src/main/java/com/example/refactoring/handler/MethodPullUpHandler.java:95-126 | declarations matching an enumeration of the dependencies match the dependency set itself, both ways |
| MethodPullUp.PullUpKeepsAbstractFlags | src/main/java/com/example/refactoring/handler/MethodPullUpHandler.java:395-406 | where every class with an abstract method is abstract the step keeps it so, and after a successful step with dependencies the destination is abstract exactly when one of its methods is |
| MethodPullUp.FinalFlags | src/main/java/com/example/refactoring/handler/MethodPullUpHandler.java:395-406 | updateParentAbstractStatus leaves the destination abstract exactly when it has an abstract method |
| MethodPullUp.CorrespondingComplete | src/main/java/com/example/refactoring/handler/MethodPullUpHandler.java:217-237 | every class with a method of that name and those parameters contributes its first such method |
| MethodPullUp.SelfCallCollectedAsWritten | src/main/java/com/example/refactoring/handler/MethodPullUpHandler.java:197-205 | as written, a private recursive method's own declaration is among its dependencies once the copy is protected; the corrected collection finds none |
| SuperCallHandler.MethodNames | src/main/java/com/example/refactoring/handler/SuperCallHandler.java:129-131 | one name per abstracted method, in order |
| SuperCallHandler.SuperCalls | src/main/java/com/example/refactoring/handler/SuperCallHandler.java:133-149 | each collected call is a super call to an abstracted name, with its name and argument count, in scan order |
| SuperCallHandler.CollectSuperCalls | src/main/java/com/example/refactoring/handler/SuperCallHandler.java:127-152 | the scan over the body yields exactly the specified call list |
| SuperCallHandler.ConcreteIndex | src/main/java/com/example/refactoring/handler/SuperCallHandler.java:200-209 | the first method with the call's name, not abstract, with as many parameters as the call has arguments; none found only when no method matches |
| SuperCallHandler.ArityIndex | src/main/java/com/example/refactoring/handler/SuperCallHandler.java:280-288 | the first method with the call's name and arity; none found only when no method matches |
| SuperCallHandler.FindConcreteIndex | src/main/java/com/example/refactoring/handler/SuperCallHandler.java:200-209 | the inner loop finds the first concrete match |
| SuperCallHandler.FindConcreteMethodInAncestors | src/main/java/com/example/refactoring/handler/SuperCallHandler.java:188-226 | the walk yields exactly the specified search result |
| SuperCallHandler.FindMethodInClass | src/main/java/com/example/refactoring/handler/SuperCallHandler.java:280-288 | the loop finds the first arity match |
| SuperCallHandler.AbstractStatusUpdated | src/main/java/com/example/refactoring/handler/SuperCallHandler.java:344-356 | the class keeps its members and stays abstract exactly when it was and still has an abstract method; the flag is never set; other classes unchanged |
| SuperCallHandler.UpdateParentClassAbstractStatus | src/main/java/com/example/refactoring/handler/SuperCallHandler.java:344-356 | the in-place update leaves exactly the specified members |
| SuperCallHandler.DefaultImplemented | src/main/java/com/example/refactoring/handler/SuperCallHandler.java:246-275 | creating the default implementation keeps the model's shape; the effect is stated by DefaultImplementedMeaning |
| SuperCallHandler.CreateDefaultImplementationInParent | src/main/java/com/example/refactoring/handler/SuperCallHandler.java:246-275 | the in-place edit leaves exactly the specified members and result |
| SuperCallHandler.RemoveSuperCall | src/main/java/com/example/refactoring/handler/SuperCallHandler.java:397-428 | corrected removal: the call is replaced by its comment in place, nothing else changes, and the call counts as removed |
| SuperCallHandler.CallHandled | src/main/java/com/example/refactoring/handler/SuperCallHandler.java:165-183 | handling one call keeps the model's shape; the effect is stated by CallHandledKeeps, CallHandledWhenDeclared and CallUnhandledIff |
| SuperCallHandler.HandleSingleSuperCall | src/main/java/com/example/refactoring/handler/SuperCallHandler.java:165-183 | the in-place handling leaves exactly the specified members and answer |
| SuperCallHandler.HandleSuperCalls | src/main/java/com/example/refactoring/handler/SuperCallHandler.java:62-107 | the in-place loop leaves exactly the specified members and result |
| SuperCallHandler.SuperCallsComplete | src/main/java/com/example/refactoring/handler/SuperCallHandler.java:133-149 | every super call to an abstracted name is collected |
| SuperCallHandler.ConcreteFromChain | src/main/java/com/example/refactoring/handler/SuperCallHandler.java:199-218 | the walk from a class is the search over that class and its ancestors, nearest first |
| SuperCallHandler.ConcreteInAncestorsIsNearest | src/main/java/com/example/refactoring/handler/SuperCallHandler.java:188-226 | the search returns the first concrete match of the nearest strict ancestor of the destination that has one |
| SuperCallHandler.FirstConcreteMeaning | src/main/java/com/example/refactoring/handler/SuperCallHandler.java:199-218 | a match found is concrete, lies in some searched class and every earlier class has none; nothing is found only when no searched class has one |
| SuperCallHandler.DestinationNotSearched | src/main/java/com/example/refactoring/handler/SuperCallHandler.java:191-197 | the destination's own methods never take part in the search |
| SuperCallHandler.DefaultImplementedMeaning | src/main/java/com/example/refactoring/handler/SuperCallHandler.java:246-342 | every signature kept; created exactly when the destination has a method with the call's name and arity, and then that method loses abstract and forwards to the ancestor, and the destination stays abstract exactly while one of its methods is; otherwise nothing changes |
| SuperCallHandler.CallHandledKeeps | src/main/java/com/example/refactoring/handler/SuperCallHandler.java:165-183 | handling a call keeps every signature and never leaves an abstract method in a class without the flag |
| SuperCallHandler.CallsHandledKeep | src/main/java/com/example/refactoring/handler/SuperCallHandler.java:81-95 | the same for any number of calls |
| SuperCallHandler.KeptThroughCallAt | src/main/java/com/example/refactoring/handler/SuperCallHandler.java:81-95 | handling the next call of the list keeps the signatures and the consistent abstract flags the earlier calls kept |
| SuperCallHandler.KeptThroughCall | src/main/java/com/example/refactoring/handler/SuperCallHandler.java:81-95 | one more call after states that kept signatures and flags keeps them still |
| SuperCallHandler.CallUnhandledIff | src/main/java/com/example/refactoring/handler/SuperCallHandler.java:165-183 | a call is left unhandled exactly when something concrete is above the destination and it has no method with the call's name and arity |
| SuperCallHandler.CallNames | src/main/java/com/example/refactoring/handler/SuperCallHandler.java:84-86 | the names of the calls, in order |
| SuperCallHandler.AllHandledWhenDeclared | src/main/java/com/example/refactoring/handler/SuperCallHandler.java:62-107 | when the destination declares a method for each call, every call is handled and no warning is raised |
| SuperCallHandler.NoWarningStep | src/main/java/com/example/refactoring/handler/SuperCallHandler.java:81-95 | one more declared call raises no warning |
| SuperCallHandler.HandledAfterKept | src/main/java/com/example/refactoring/handler/SuperCallHandler.java:81-95 | a state that kept signatures still declares every call, so the next call is handled |
| SuperCallHandler.HandledStep | src/main/java/com/example/refactoring/handler/SuperCallHandler.java:84-86 | a handled call adds no warning |
| SuperCallHandler.CallHandledWhenDeclared | src/main/java/com/example/refactoring/handler/SuperCallHandler.java:165-183 | a declared call is handled |
| SuperCallHandler.RemovalCommentLost | src/main/java/com/example/refactoring/handler/SuperCallHandler.java:397-428 | as written: the comment attached to the deleted statement goes with it, leaving the body one reference shorter and without the comment |
| SuperCallHandler.RemovalCommentKept | src/main/java/com/example/refactoring/handler/SuperCallHandler.java:397-428 | corrected: the call is gone, the explaining comment stands in its place, and every other reference is untouched |
| SuperCallHandler.FiguresCalls | src/test/java/com/example/refactoring/SuperCallHandlingTest.java:132-150 | EllipseFigure's body holds one super call to invalidate |
| SuperCallHandler.FiguresAncestor | src/test/java/com/example/refactoring/SuperCallHandlingTest.java:93-110 | BaseFigure's concrete invalidate is found above AttributedFigure |
| SuperCallHandler.HandledByDefault | src/main/java/com/example/refactoring/handler/SuperCallHandler.java:165-275 | a call with something concrete above and a matching declaration gets a default implementation there |
| SuperCallHandler.FiguresDefaultImplementation | src/test/java/com/example/refactoring/SuperCallHandlingTest.java:31-86 | AttributedFigure's invalidate becomes a concrete protected method forwarding to the superclass, AttributedFigure is no longer abstract, and the call counts as handled with no warning |
| RefactoringOrchestrator.Locate | src/main/java/com/example/refactoring/core/RefactoringOrchestrator.java:107-137 | a located refactoring names a class of the model, one of its methods with that name, and a destination that is a strict ancestor of the class |
| RefactoringOrchestrator.DefaultTargetIsDirectSuperclass | src/main/java/com/example/refactoring/core/RefactoringOrchestrator.java:126-137 | with no target named, the destination is the origin's direct superclass, and locating fails only when that does not resolve |
| RefactoringOrchestrator.NamedSuperclassSameAsDefault | src/main/java/com/example/refactoring/core/RefactoringOrchestrator.java:126-137 | naming the direct superclass locates the same destination as naming no target |
| RefactoringOrchestrator.PerformPreChecks | src/main/java/com/example/refactoring/core/RefactoringOrchestrator.java:209-245 | the method's outcome is exactly the specified precheck outcome |
| RefactoringOrchestrator.PreChecksOutcome | src/main/java/com/example/refactoring/core/RefactoringOrchestrator.java:209-245 | the prechecks fail exactly when the conflict check does, a duplicate included; a success carries one warning per dependency issue, then one visibility warning exactly when the method is private or package-private |
| RefactoringOrchestrator.PreparedCopy | src/main/java/com/example/refactoring/core/RefactoringOrchestrator.java:255-275 | the copy keeps the original's name, parameters, annotations, thrown types and non-visibility modifiers, is at least protected, and changes its return type only when the adjuster reports a change |
| RefactoringOrchestrator.DependentsMoved | src/main/java/com/example/refactoring/core/RefactoringOrchestrator.java:278-289 | moving the dependents keeps the number of classes; the effect is stated by DependentsMovedGrows |
| RefactoringOrchestrator.CloneAdded | src/main/java/com/example/refactoring/core/RefactoringOrchestrator.java:292 | adding the copy keeps the number of classes; the effect is stated by CopyAlignedEffect |
| RefactoringOrchestrator.Counterparts | src/main/java/com/example/refactoring/core/RefactoringOrchestrator.java:332-352 | each counterpart is a method of a listed class other than the origin |
| RefactoringOrchestrator.Overridden | src/main/java/com/example/refactoring/core/RefactoringOrchestrator.java:362-367 | the annotation pass keeps the model's shape; the effect is stated by OverriddenAt |
| RefactoringOrchestrator.Aligned | src/main/java/com/example/refactoring/core/RefactoringOrchestrator.java:354-368 | the alignment keeps the model's shape; the effect is stated by AlignedKeeps and AlignedAt |
| RefactoringOrchestrator.MethodRemoved | src/main/java/com/example/refactoring/core/RefactoringOrchestrator.java:303 | removing the method keeps the number of classes; the effect is stated by MigrationEffect |
| RefactoringOrchestrator.CopyAligned | src/main/java/com/example/refactoring/core/RefactoringOrchestrator.java:292-296 | adding and aligning the copy keeps the number of classes; the effect is stated by CopyAlignedEffect |
| RefactoringOrchestrator.AdjustVisibilityForConflictingMethodsInAllDescendants | src/main/java/com/example/refactoring/core/RefactoringOrchestrator.java:326-371 | the in-place method leaves exactly the specified alignment of the declaration with its counterparts |
| RefactoringOrchestrator.CollectCounterparts | src/main/java/com/example/refactoring/core/RefactoringOrchestrator.java:332-352 | the loop yields exactly the specified counterparts |
| RefactoringOrchestrator.AddOverrideAnnotations | src/main/java/com/example/refactoring/core/RefactoringOrchestrator.java:362-367 | the in-place loop leaves exactly the specified annotated state |
| RefactoringOrchestrator.PerformMethodMigration | src/main/java/com/example/refactoring/core/RefactoringOrchestrator.java:250-315 | the in-place migration leaves exactly the specified migrated state and reports success |
| RefactoringOrchestrator.AddAndAlign | src/main/java/com/example/refactoring/core/RefactoringOrchestrator.java:292-296 | the in-place steps leave exactly the specified state |
| RefactoringOrchestrator.PrepareCopy | src/main/java/com/example/refactoring/core/RefactoringOrchestrator.java:255-275 | the copy is exactly the specified prepared copy |
| RefactoringOrchestrator.PullUpDependents | src/main/java/com/example/refactoring/core/RefactoringOrchestrator.java:278-289 | the in-place steps leave exactly the specified state and return the destination's descendants |
| RefactoringOrchestrator.PullUpMethodToAncestor | src/main/java/com/example/refactoring/core/RefactoringOrchestrator.java:91-195 | a model that could not be built gives the failure "无法构建代码模型"; otherwise the in-place run leaves exactly the specified model and outcome |
| RefactoringOrchestrator.PullUpMethod | src/main/java/com/example/refactoring/core/RefactoringOrchestrator.java:74-79 | the same with no target named |
| RefactoringOrchestrator.QualifiedNames | src/main/java/com/example/refactoring/core/RefactoringOrchestrator.java:437-454 | one qualified name per class, in order |
| RefactoringOrchestrator.PullUpOutcome | src/main/java/com/example/refactoring/core/RefactoringOrchestrator.java:91-195 | a failure leaves the model unchanged with no warnings and no files, and a failed gate carries its message; success exactly when the gates and prechecks pass, and then no warnings, the files written, the success message, and the migrated model |
| RefactoringOrchestrator.FieldsPulledUpKeepMethods | src/main/java/com/example/refactoring/handler/FieldPullUpHandler.java:97-111 | moving fields never touches a method |
| RefactoringOrchestrator.SingleFieldKeepsMethods | src/main/java/com/example/refactoring/handler/FieldPullUpHandler.java:299-342 | moving one field never touches a method |
| RefactoringOrchestrator.DependentFieldsKeepMethods | src/main/java/com/example/refactoring/handler/FieldPullUpHandler.java:64-126 | the dependent-field step never touches a method |
| RefactoringOrchestrator.CounterpartsIff | src/main/java/com/example/refactoring/core/RefactoringOrchestrator.java:332-352 | the counterparts are exactly the first method matching the copy in each listed class other than the origin |
| RefactoringOrchestrator.OverriddenAt | src/main/java/com/example/refactoring/core/RefactoringOrchestrator.java:362-367 | each visited position gains Override with nothing else changed, and no other method changes |
| RefactoringOrchestrator.AlignedKeeps | src/main/java/com/example/refactoring/core/RefactoringOrchestrator.java:354-368 | the alignment keeps every method at its place with its signature |
| RefactoringOrchestrator.AlignedAt | src/main/java/com/example/refactoring/core/RefactoringOrchestrator.java:354-368 | afterwards the declaration differs only in visibility, now protected or public; each counterpart has Override and the declaration's visibility, and keeps its signature |
| RefactoringOrchestrator.DeclarationNotCounterpart | src/main/java/com/example/refactoring/core/RefactoringOrchestrator.java:332-352 | the destination is not among its own descendants, so it never counts as a counterpart |
| RefactoringOrchestrator.CopyAlignedEffect | src/main/java/com/example/refactoring/core/RefactoringOrchestrator.java:292-296 | every method keeps its place and signature, and the copy lands at the destination's end with only its visibility possibly widened |
| RefactoringOrchestrator.DependentsMovedGrows | src/main/java/com/example/refactoring/core/RefactoringOrchestrator.java:278-289 | moving the dependents keeps every method at its place with its signature |
| RefactoringOrchestrator.MigrationEffect | src/main/java/com/example/refactoring/core/RefactoringOrchestrator.java:250-315 | the copy lands in the destination right after the methods it had once the dependents moved, with the original's name, parameters, annotations, thrown types and non-visibility modifiers and at least protected visibility; the removal takes exactly the original out of the origin, and nothing else changes |
| RefactoringOrchestrator.MigrationAlignsCounterparts | src/main/java/com/example/refactoring/core/RefactoringOrchestrator.java:326-371 | every other descendant's first matching method ends annotated Override, at the copy's visibility, with its signature unchanged |
| RefactoringOrchestrator.AncestorClassNamesChain | src/main/java/com/example/refactoring/core/RefactoringOrchestrator.java:437-454 | the listing names the ancestors nearest first, each the direct superclass of the one before, the last having none; an unknown class gives none |
| RefactoringOrchestrator.AncestorsLinked | src/main/java/com/example/refactoring/core/RefactoringOrchestrator.java:437-454 | the ancestor chain links each class to its direct superclass and ends at a class with none |
| CodeGenerator.CheckMethodModifications | src/main/java/com/example/refactoring/core/CodeGenerator.java:181-199 | the early-return scan answers exactly whether some method has Override, or is public and not named like the class |
| CodeGenerator.TouchedAmong | src/main/java/com/example/refactoring/core/CodeGenerator.java:146-154 | exactly the listed classes other than the origin in which some method shows a modification |
| CodeGenerator.ModifiedClassesMembers | src/main/java/com/example/refactoring/core/CodeGenerator.java:137-157 | a class is modified exactly when it is the origin, the destination, or a descendant of the destination other than the origin with a method modification |
| CodeGenerator.CollectModifiedClasses | src/main/java/com/example/refactoring/core/CodeGenerator.java:137-157 | the origin and destination are always in the set, and a class is in it exactly when the rule above says so |
| CodeGenerator.TouchedClasses | src/main/java/com/example/refactoring/core/CodeGenerator.java:146-154 | the loop over the descendants yields exactly the touched classes |
| CodeGenerator.FilesOf | src/main/java/com/example/refactoring/core/CodeGenerator.java:165-170 | every listed class with a source file contributes it, at most one file per class |
| CodeGenerator.GetOriginalFilePathsForModifiedClasses | src/main/java/com/example/refactoring/core/CodeGenerator.java:161-176 | the source files of the modified classes, in the set's iteration order |
| CodeGenerator.FirstSourceRoot | src/main/java/com/example/refactoring/core/CodeGenerator.java:330-336 | the first source path that is a directory containing the file; none only when no source path does; this is the corrected whole-directory containment, as written a plain string prefix (RelativePathPrefixClash) |
| CodeGenerator.RelativePath | src/main/java/com/example/refactoring/core/CodeGenerator.java:330-338 | corrected path: a suffix of the file path, the bare file name when no source directory contains the file |
| CodeGenerator.RelativePathRebuilds | src/main/java/com/example/refactoring/core/CodeGenerator.java:330-338 | when a source directory contains the file, that directory, a slash and the relative path give back the file path |
| CodeGenerator.GetRelativePath | src/main/java/com/example/refactoring/core/CodeGenerator.java:330-338 | the corrected early-return loop yields exactly the specified relative path |
| CodeGenerator.RelativePathAsWritten | src/main/java/com/example/refactoring/core/CodeGenerator.java:330-338 | as written: the path is missing, which stands for the exception, only when the file path equals a source path |
| CodeGenerator.RelativePathPrefixClash | src/main/java/com/example/refactoring/core/CodeGenerator.java:333-334 | as written, with source paths /p/core and /p/core-ui the file /p/core-ui/A.java is placed at ui/A.java; corrected it is A.java |
| CodeGenerator.RelativePathOfRootThrows | src/main/java/com/example/refactoring/core/CodeGenerator.java:333-334 | as written, a source path equal to the file path makes substring throw |
| CodeGenerator.RelativePathAgrees | src/main/java/com/example/refactoring/core/CodeGenerator.java:330-338 | where every string-prefix source path is a whole directory containing the file, the corrected and as-written paths agree |
| CodeGenerator.TargetFile | src/main/java/com/example/refactoring/core/CodeGenerator.java:248-259 | with no output path the original file is overwritten; otherwise the target lies below the output path and keeps the file's name, placed by the corrected RelativePath (whole-directory containment), not by the string-prefix test as written (RelativePathAsWritten) |
| CodeGenerator.KeepsFileName | src/main/java/com/example/refactoring/core/CodeGenerator.java:330-338 | the relative path ends with the file's own name |
| CodeGenerator.WriteClass | src/main/java/com/example/refactoring/core/CodeGenerator.java:204-221 | a file is written exactly when the class has a source file, and with no output path it is that file; with an output path it uses the corrected relative path, so the file is written where as written `substring` throws for a file path equal to a source path (RelativePathOfRootThrows) and nothing is written |
| CodeGenerator.TargetFiles | src/main/java/com/example/refactoring/core/CodeGenerator.java:43-50 | at most one file per class; which files they are is stated by OverwriteWritesOriginals |
| CodeGenerator.OverwriteWritesOriginals | src/main/java/com/example/refactoring/core/CodeGenerator.java:248-259 | with no output path the files written are exactly the original files of those classes |
| CodeGenerator.WriteModifiedClassesOnly | src/main/java/com/example/refactoring/core/CodeGenerator.java:35-58 | the files written for the modified classes, in the set's iteration order |
| CodeGenerator.WriteClasses | src/main/java/com/example/refactoring/core/CodeGenerator.java:43-50 | the loop writes each class in turn and lists its file when it has one |
| CodeGenerator.GluedModifier | src/main/java/com/example/refactoring/core/CodeGenerator.java:292 | a match is @Override immediately followed by public, protected or private and at least one whitespace character |
| CodeGenerator.FixOverrideAnnotationFormatting | src/main/java/com/example/refactoring/core/CodeGenerator.java:286-299 | null and empty code come back unchanged, and code without an annotation is unchanged |
| CodeGenerator.NoAnnotationUnchanged | src/main/java/com/example/refactoring/core/CodeGenerator.java:292 | code with no @ at all is left as it is |
| CodeGenerator.FixOverridesIdempotent | src/main/java/com/example/refactoring/core/CodeGenerator.java:292 | a second pass finds nothing more to rewrite |
| CodeGenerator.RewrittenStays | src/main/java/com/example/refactoring/core/CodeGenerator.java:292 | the replacement text is not itself a match, so a second pass copies it |
| CodeGenerator.GluedRewritten | src/main/java/com/example/refactoring/core/CodeGenerator.java:292 | each glued annotation becomes @Override, a line break, four spaces, the modifier, one space and the rewritten rest, the whole whitespace run dropped |
| CodeGenerator.SpacedPrefixKept | src/main/java/com/example/refactoring/core/CodeGenerator.java:292 | whether a pattern free of @ opens the text is the same before and after the rewrite |
| ImportManager.ValidImportsMembers | src/main/java/com/example/refactoring/core/ImportManager.java:185-196 | the imports that survive the clean-up are exactly the valid ones, and no more of them than before |
| ImportManager.ImportNamesMembers | src/main/java/com/example/refactoring/core/ImportManager.java:185-196 | the collected names are exactly the texts of the valid imports |
| ImportManager.ShouldAddImport | src/main/java/com/example/refactoring/core/ImportManager.java:204-230 | an import is due exactly for a present, eligible reference (not primitive, named, outside java.lang, outside the current package, not nested, not the null type) whose name and package wildcard are not imported yet |
| ImportManager.Added | src/main/java/com/example/refactoring/core/ImportManager.java:170-174 | every added name was not imported before, none is added twice, and every eligible reference ends up covered by its name or its package wildcard |
| ImportManager.AddedFromReferences | src/main/java/com/example/refactoring/core/ImportManager.java:170-174 | every added name is the name of an eligible referenced type |
| ImportManager.ImportsFor | src/main/java/com/example/refactoring/core/ImportManager.java:235-248 | one import declaration per name, in order |
| ImportManager.AddedIdempotent | src/main/java/com/example/refactoring/core/ImportManager.java:164-175 | running the processing again over the same references adds nothing more |
| ImportManager.AddedNothing | src/main/java/com/example/refactoring/core/ImportManager.java:224-227 | references already processed add nothing once their names are among the existing imports |
| ImportManager.RemoveFirst | src/main/java/com/example/refactoring/core/ImportManager.java:189 | removing an absent import leaves the list unchanged |
| ImportManager.RemoveAfterValid | src/main/java/com/example/refactoring/core/ImportManager.java:185-196 | with only valid imports before it, removing an invalid import takes that very one out |
| ImportManager.CleanStep | src/main/java/com/example/refactoring/core/ImportManager.java:185-196 | one step of the walk over the copy: a valid import stays and adds its name, an invalid one leaves the list |
| ImportManager.CompilationUnit.constructor | src/main/java/com/example/refactoring/core/ImportManager.java:139-146 | a compilation unit holds the given imports |
| ImportManager.RemoveInvalid | src/main/java/com/example/refactoring/core/ImportManager.java:189 | the in-place removal of an invalid import preceded only by valid ones |
| ImportManager.CleanAndCollectExistingImports | src/main/java/com/example/refactoring/core/ImportManager.java:180-199 | the unit is left with exactly its valid imports, and the names returned are exactly their texts |
| ImportManager.ProcessImports | src/main/java/com/example/refactoring/core/ImportManager.java:164-175 | the unit keeps exactly its valid imports followed by one new import per name added |
| ImportManager.AddNeededImports | src/main/java/com/example/refactoring/core/ImportManager.java:170-174 | the loop appends one import per added name and grows the existing names by them |
| ImportManager.AddedStep | src/main/java/com/example/refactoring/core/ImportManager.java:170-174 | one more reference adds its name exactly when shouldAddImport accepts it |
| ImportManager.AddImport | src/main/java/com/example/refactoring/core/ImportManager.java:235-248 | one more import at the end of the list |
| ImportManager.EnsureMissingImports | src/main/java/com/example/refactoring/core/ImportManager.java:30-134 | no target class, or no method, changes nothing; otherwise the target's imports are processed as specified |
| ImportManager.AddedImportsValid | src/main/java/com/example/refactoring/core/ImportManager.java:235-248 | every import added is itself valid, so a later clean-up keeps it |
| ModuleResolver.SegmentsPrefix | src/main/java/com/example/refactoring/core/ModuleResolver.java:63-65 | the first `end` dotted pieces of a name, joined and followed by a dot, are a prefix of it |
| ModuleResolver.DropTrailingEmpty | src/main/java/com/example/refactoring/core/ModuleResolver.java:63 | the trailing empty pieces are removed and nothing else: the result is a prefix of the pieces and ends in a non-empty one |
| ModuleResolver.SplitDots | src/main/java/com/example/refactoring/core/ModuleResolver.java:63 | `split("\\.")` gives a prefix of the dotted pieces |
| ModuleResolver.StripStatic | src/main/java/com/example/refactoring/core/ModuleResolver.java:61 | a leading `static ` is dropped, and any other name is left as it is |
| ModuleResolver.LongestIndexed | src/main/java/com/example/refactoring/core/ModuleResolver.java:64-68 | the largest prefix length whose key is indexed, with no longer one indexed; none when no prefix length is indexed |
| ModuleResolver.Resolve | src/main/java/com/example/refactoring/core/ModuleResolver.java:57-70 | no name gives no module, and a name with at most one dotted piece gives no module |
| ModuleResolver.ResolvedIsLongestPrefix | src/main/java/com/example/refactoring/core/ModuleResolver.java:57-70 | a resolved module is the one indexed under a proper dotted prefix of the name, and no longer proper prefix is indexed |
| ModuleResolver.StaticImportResolvesAsMember | src/main/java/com/example/refactoring/core/ModuleResolver.java:61 | a static import resolves like the name it imports |
| ModuleResolver.PackageOf | src/main/java/com/example/refactoring/core/ModuleResolver.java:141-147 | the package a file declares is non-empty |
| ModuleResolver.ScannedFiles | src/main/java/com/example/refactoring/core/ModuleResolver.java:135-137 | at most 5000 files are scanned, and each of them is a `.java` file of the module |
| ModuleResolver.JavaFiles | src/main/java/com/example/refactoring/core/ModuleResolver.java:136 | exactly the files whose path ends in `.java` |
| ModuleResolver.FilePackages | src/main/java/com/example/refactoring/core/ModuleResolver.java:138-149 | one entry per file, the package its first package line declares |
| ModuleResolver.SomesFrom | src/main/java/com/example/refactoring/core/ModuleResolver.java:145 | a collected package comes from one of the files |
| ModuleResolver.DeclaredPackagesFrom | src/main/java/com/example/refactoring/core/ModuleResolver.java:135-150 | every collected package is non-empty and declared by a scanned `.java` file |
| ModuleResolver.InsertByLength | src/main/java/com/example/refactoring/core/ModuleResolver.java:155 | one insertion step keeps the list longest first and adds exactly one element |
| ModuleResolver.SortLongestFirst | src/main/java/com/example/refactoring/core/ModuleResolver.java:155 | the sort gives a longest-first permutation of its input |
| ModuleResolver.DiscoverPackagesUnderModule | src/main/java/com/example/refactoring/core/ModuleResolver.java:130-157 | the loop's list, de-duplicated and sorted, is the declared packages, each once, longest first |
| ModuleResolver.DiscoveredPackagesShape | src/main/java/com/example/refactoring/core/ModuleResolver.java:152-156 | the result is longest first, holds exactly the declared packages, and none twice |
| ModuleResolver.DistinctUnchangedBySort | src/main/java/com/example/refactoring/core/ModuleResolver.java:153-155 | sorting a list without repeats keeps it without repeats |
| ModuleResolver.IndexOf | src/main/java/com/example/refactoring/core/ModuleResolver.java:40-47 | every key of the index ends in a dot |
| ModuleResolver.PutAll | src/main/java/com/example/refactoring/core/ModuleResolver.java:43-46 | keys keep ending in a dot, and a module with no coordinates adds nothing |
| ModuleResolver.IndexedPackagesDeclared | src/main/java/com/example/refactoring/core/ModuleResolver.java:40-47 | every key of the index is `pkg.` for a package of some module whose coordinates were read |
| ModuleResolver.PutAllNew | src/main/java/com/example/refactoring/core/ModuleResolver.java:43-46 | a key that putting a module's packages adds is `pkg.` for one of its packages |
| ModuleResolver.PutAllMaps | src/main/java/com/example/refactoring/core/ModuleResolver.java:45 | after a module's packages are put, each of them maps to its coordinates |
| ModuleResolver.LaterModuleWins | src/main/java/com/example/refactoring/core/ModuleResolver.java:40-47 | a package declared by the last readable module maps to that module, whatever earlier modules put |
| ModuleResolver.Resolver.constructor | src/main/java/com/example/refactoring/core/ModuleResolver.java:37-52 | the index holds `pkg.` for every package of every readable module, module by module |
| ModuleResolver.Resolver.ResolveByQualifiedName | src/main/java/com/example/refactoring/core/ModuleResolver.java:57-70 | the lookup loop returns what the longest-prefix resolution specifies |
| PomDependencyManager.ImportedName | src/main/java/com/example/refactoring/core/PomDependencyManager.java:91-97 | a name is read exactly from a trimmed line that starts with `import ` and ends with `;` |
| PomDependencyManager.NeededArtifact | src/main/java/com/example/refactoring/core/PomDependencyManager.java:98-101 | an artifact is needed only for an import line, and its artifactId is non-empty |
| PomDependencyManager.Added | src/main/java/com/example/refactoring/core/PomDependencyManager.java:128-146 | the ids added are new and requested, every requested id is known or added, and none is added twice |
| PomDependencyManager.AddedStep | src/main/java/com/example/refactoring/core/PomDependencyManager.java:129 | one more requested id is added exactly when it is neither listed nor added already |
| PomDependencyManager.AddedNothing | src/main/java/com/example/refactoring/core/PomDependencyManager.java:128-129 | when every requested id is listed, nothing is appended (the idempotence the class promises) |
| PomDependencyManager.LineArtifacts | src/main/java/com/example/refactoring/core/PomDependencyManager.java:90-102 | one entry per line, the artifact that line needs |
| PomDependencyManager.CollectedDistinct | src/main/java/com/example/refactoring/core/PomDependencyManager.java:87 | the insertion-ordered set holds no artifact twice |
| PomDependencyManager.CollectedMembers | src/main/java/com/example/refactoring/core/PomDependencyManager.java:87-102 | an artifact is collected exactly when one of the lines seen needs it |
| PomDependencyManager.CollectedStep | src/main/java/com/example/refactoring/core/PomDependencyManager.java:100 | one more line adds its artifact exactly when the artifact is new |
| PomDependencyManager.NeededArtifactsDistinct | src/main/java/com/example/refactoring/core/PomDependencyManager.java:86-107 | no needed artifact is listed twice |
| PomDependencyManager.NeededArtifactsMembers | src/main/java/com/example/refactoring/core/PomDependencyManager.java:86-107 | an artifact is needed exactly when some import line of the file resolves to it |
| PomDependencyManager.LineArtifact | src/main/java/com/example/refactoring/core/PomDependencyManager.java:91-101 | the loop body yields the artifact the line needs |
| PomDependencyManager.DetectNeededArtifacts | src/main/java/com/example/refactoring/core/PomDependencyManager.java:86-107 | the loop returns the needed artifacts of the file's lines |
| PomDependencyManager.FirstChild | src/main/java/com/example/refactoring/core/PomDependencyManager.java:198-207 | the first element child with the name: it has the name and no earlier element child does; none when no child has it |
| PomDependencyManager.ListedArtifactId | src/main/java/com/example/refactoring/core/PomDependencyManager.java:213-231 | only a `<dependency>` element lists an artifactId |
| PomDependencyManager.ExistingIdsMembers | src/main/java/com/example/refactoring/core/PomDependencyManager.java:209-234 | an id is listed exactly when some dependency element lists it |
| PomDependencyManager.ExistingIdsAppend | src/main/java/com/example/refactoring/core/PomDependencyManager.java:212 | the ids of two runs of children are the ids of each |
| PomDependencyManager.CollectExistingArtifactIds | src/main/java/com/example/refactoring/core/PomDependencyManager.java:209-234 | the loop over the children returns the listed ids |
| PomDependencyManager.NewDependency | src/main/java/com/example/refactoring/core/PomDependencyManager.java:130-142 | the appended element is a `<dependency>` with groupId, artifactId and `${project.version}` children, in that order |
| PomDependencyManager.NewDependencies | src/main/java/com/example/refactoring/core/PomDependencyManager.java:128-146 | one appended element per added id, in order |
| PomDependencyManager.NewDependencyListed | src/main/java/com/example/refactoring/core/PomDependencyManager.java:130-142 | an appended element lists its own artifactId when it is trimmed and non-empty |
| PomDependencyManager.NewDependenciesListed | src/main/java/com/example/refactoring/core/PomDependencyManager.java:128-146 | the appended elements list exactly the ids appended |
| PomDependencyManager.Manifest.constructor | src/main/java/com/example/refactoring/core/PomDependencyManager.java:109-125 | a manifest with the given groupId and dependency children |
| PomDependencyManager.GroupIdOrFallback | src/main/java/com/example/refactoring/core/PomDependencyManager.java:185-195 | a non-empty groupId found up the tree wins; otherwise the fallback `org.jhotdraw`, which is never empty |
| PomDependencyManager.Appended | src/main/java/com/example/refactoring/core/PomDependencyManager.java:125-148 | the appended ids are requested and not yet listed, and none twice |
| PomDependencyManager.EnsureDependenciesInPom | src/main/java/com/example/refactoring/core/PomDependencyManager.java:109-162 | the manifest is changed exactly when something is appended, and then it gains one new element per appended id at the end of its dependencies |
| PomDependencyManager.AppendIdempotent | src/main/java/com/example/refactoring/core/PomDependencyManager.java:26-33 | a second run over the same artifactIds appends nothing |
| PomDependencyManager.FixMissingModuleDependencies | src/main/java/com/example/refactoring/core/PomDependencyManager.java:46-72 | a `null` or empty list changes nothing, and a manifest no existing changed file leads to is left as it was |
| SnapshotManager.Normalize | src/main/java/com/example/refactoring/core/SnapshotManager.java:60-61 | `normalize()` yields a path in normal form |
| SnapshotManager.NormalizeKeepsNormal | src/main/java/com/example/refactoring/core/SnapshotManager.java:60-61 | normalising a normal path changes nothing, so normalising is idempotent |
| SnapshotManager.RawAbsolute | src/main/java/com/example/refactoring/core/SnapshotManager.java:39-41 | `getAbsoluteFile().toPath()`: a relative path goes below the working directory, empty names vanish, `.` and `..` stay; no name is empty or holds a separator |
| SnapshotManager.DropEmpty | src/main/java/com/example/refactoring/core/SnapshotManager.java:39-41 | dropping the empty names leaves no empty name and no separator |
| SnapshotManager.Absolute | src/main/java/com/example/refactoring/core/SnapshotManager.java:60-61 | the path `commonAncestor` compares, made absolute and normalised, is in normal form |
| SnapshotManager.PathText | src/main/java/com/example/refactoring/core/SnapshotManager.java:166-167 | the text of an absolute path starts with `/` |
| SnapshotManager.InDirectory | src/main/java/com/example/refactoring/core/SnapshotManager.java:106 | a file made under a directory has a path starting with the directory's |
| SnapshotManager.AbsolutePathText | src/main/java/com/example/refactoring/core/SnapshotManager.java:166 | an absolute path text is its own absolute path |
| SnapshotManager.CommonPrefix | src/main/java/com/example/refactoring/core/SnapshotManager.java:62-70 | a path both start with, that cannot be extended by one more shared name |
| SnapshotManager.CommonPrefixLongest | src/main/java/com/example/refactoring/core/SnapshotManager.java:62-74 | every path both start with lies within the common prefix |
| SnapshotManager.CommonAncestor | src/main/java/com/example/refactoring/core/SnapshotManager.java:59-75 | the loop counting equal names gives the common prefix of the two normalised paths, the root when none is shared |
| SnapshotManager.CommonOfAllLongest | src/main/java/com/example/refactoring/core/SnapshotManager.java:39-47 | the folded ancestor is above each path, and every path above all of them is above it |
| SnapshotManager.AbsoluteAll | src/main/java/com/example/refactoring/core/SnapshotManager.java:39-41 | the normalised absolute form of each path, as `commonAncestor` compares it, in order |
| SnapshotManager.ProjectRoot | src/main/java/com/example/refactoring/core/SnapshotManager.java:34-57 | as written: the root is clean but keeps the `.` and `..` of a single source path; with several paths, or a single one already in normal form, it is the corrected root (ProjectRootAgrees); DotSourcePathFlattens shows the difference |
| SnapshotManager.CorrectedProjectRoot | src/main/java/com/example/refactoring/core/SnapshotManager.java:34-57 | corrected: the single source path is normalised like several are, so the root is in normal form |
| SnapshotManager.ProjectRootAgrees | src/main/java/com/example/refactoring/core/SnapshotManager.java:39-51 | the as-written and corrected roots are equal for two or more paths, and for one path already in normal form |
| SnapshotManager.FoldAgrees | src/main/java/com/example/refactoring/core/SnapshotManager.java:39-47 | under that condition the fold is the common prefix of the normalised paths and is in normal form |
| SnapshotManager.FoldedIsCommonOfAll | src/main/java/com/example/refactoring/core/SnapshotManager.java:40-47 | from the second path on, the fold of `commonAncestor` is the common prefix of all the normalised paths |
| SnapshotManager.PrefixNormalized | src/main/java/com/example/refactoring/core/SnapshotManager.java:73-74 | a prefix of a normalised path, as `subpath` returns it, is normalised |
| SnapshotManager.NormalizedClean | src/main/java/com/example/refactoring/core/SnapshotManager.java:60-61 | a path in normal form has no empty name and normalises to itself |
| SnapshotManager.CorrectedRootKeepsTree | src/main/java/com/example/refactoring/core/SnapshotManager.java:165-174 | corrected: a file below the root is recorded by the names below it, and its copy is put back on the same path |
| SnapshotManager.DotSourcePathFlattens | src/main/java/com/example/refactoring/core/SnapshotManager.java:165-174 | as written, the source path `./src` below `/w` gives the root `/w/./src`, so `/w/src/p/A.java` is recorded as `A.java` and restored to `/w/./src/A.java`; the corrected root `/w/src` records `p/A.java` |
| SnapshotManager.CommonOfAllNormal | src/main/java/com/example/refactoring/core/SnapshotManager.java:40-47 | folding normal paths gives a normal path |
| SnapshotManager.ProjectRootAboveSources | src/main/java/com/example/refactoring/core/SnapshotManager.java:30-57 | corrected: for a non-empty list, the root lies above every normalised source path |
| SnapshotManager.FoldedFirst | src/main/java/com/example/refactoring/core/SnapshotManager.java:39 | the fold starts from the first path made absolute and not normalised |
| SnapshotManager.CommonOfAllStep | src/main/java/com/example/refactoring/core/SnapshotManager.java:41-42 | one step of the fold is the common prefix of the normalised fold so far and the normalised next path |
| SnapshotManager.DetermineProjectRoot | src/main/java/com/example/refactoring/core/SnapshotManager.java:34-57 | the method returns the as-written root: the working directory for no paths, else the fold, cut to its parent when the file system finds a file there |
| SnapshotManager.CommonAncestorOfAll | src/main/java/com/example/refactoring/core/SnapshotManager.java:39-47 | the loop starts from the first path un-normalised and folds `commonAncestor` over the rest |
| SnapshotManager.FoldNext | src/main/java/com/example/refactoring/core/SnapshotManager.java:41-42 | one turn of the loop extends the fold by the next path |
| SnapshotManager.ToRelativePathWithinProject | src/main/java/com/example/refactoring/core/SnapshotManager.java:165-174 | text below the root, without one leading separator, when the path starts with the root's text; the file name otherwise |
| SnapshotManager.RelativeInsideRoot | src/main/java/com/example/refactoring/core/SnapshotManager.java:105-106 | a file below the root gets the names below the root, and the copy made from them lands on the same path under the root |
| SnapshotManager.RelativeBelowDirectory | src/main/java/com/example/refactoring/core/SnapshotManager.java:168-171 | a path that is the root's text, a separator and a rest gives back the rest |
| SnapshotManager.LineEnd | src/main/java/com/example/refactoring/core/SnapshotManager.java:138 | the next line break at or after the start, with none in between, or the end of the text |
| SnapshotManager.ReadAllLinesUnlines | src/main/java/com/example/refactoring/core/SnapshotManager.java:138 | the lines written one per `\n` read back as the same lines |
| SnapshotManager.MetaLines | src/main/java/com/example/refactoring/core/SnapshotManager.java:95-109 | two header lines, then the relative path of each copy |
| SnapshotManager.SnapshotStore.constructor | src/main/java/com/example/refactoring/core/SnapshotManager.java:23-28 | no snapshot directory, no meta file and no copies yet |
| SnapshotManager.CopiedFiles | src/main/java/com/example/refactoring/core/SnapshotManager.java:100-111 | no more copies than listed files |
| SnapshotManager.SaveSnapshot | src/main/java/com/example/refactoring/core/SnapshotManager.java:80-118 | a `null` or empty list changes nothing; otherwise the as-written root's snapshot directory replaces the old one and holds exactly the copies and the meta text listing them |
| SnapshotManager.CopyListed | src/main/java/com/example/refactoring/core/SnapshotManager.java:99-111 | the loop copies exactly the listed regular files and writes their lines to the meta text |
| SnapshotManager.CopyOne | src/main/java/com/example/refactoring/core/SnapshotManager.java:101-110 | one turn of the copy loop extends the copies and the meta text exactly as one more listed file does, leaving the snapshot location and meta file alone |
| SnapshotManager.CopiedStep | src/main/java/com/example/refactoring/core/SnapshotManager.java:101-110 | a missing or non-regular file is skipped; a copied one adds its relative path to the copies and a line to the meta text |
| SnapshotManager.FirstEntryAsWritten | src/main/java/com/example/refactoring/core/SnapshotManager.java:139-143 | as written: the first line from the start without `=`, every line before it holding `=` |
| SnapshotManager.RestoredMembers | src/main/java/com/example/refactoring/core/SnapshotManager.java:146-156 | only files the snapshot holds are restored, and never from an empty line |
| SnapshotManager.RestoreSnapshot | src/main/java/com/example/refactoring/core/SnapshotManager.java:123-163 | no snapshot directory under the as-written root or no meta file answers false and restores nothing; otherwise the entries after the two header lines that have a copy are restored, and the answer is whether any was. This is the corrected header skip; as written every leading line holding `=` is skipped (RestoreSkipsEntriesWithEquals) |
| SnapshotManager.RestoreEntries | src/main/java/com/example/refactoring/core/SnapshotManager.java:145-156 | the loop restores exactly the entries from the start index that have a copy |
| SnapshotManager.RestoreLine | src/main/java/com/example/refactoring/core/SnapshotManager.java:147-155 | one meta line, taken back to front, puts its entry in front of the later ones exactly when it names a copy |
| SnapshotManager.RestoredStep | src/main/java/com/example/refactoring/core/SnapshotManager.java:147-155 | one meta line restores its trimmed text when that is non-empty and has a copy |
| SnapshotManager.RestoredAll | src/main/java/com/example/refactoring/core/SnapshotManager.java:146-156 | when every later line is an entry with a copy, all of them are restored, in order |
| SnapshotManager.MetaHeader | src/main/java/com/example/refactoring/core/SnapshotManager.java:96-97 | both header lines hold `=` and no line break |
| SnapshotManager.MetaReadsBack | src/main/java/com/example/refactoring/core/SnapshotManager.java:113 | reading the meta file back gives the lines written |
| SnapshotManager.SaveThenRestore | src/main/java/com/example/refactoring/core/SnapshotManager.java:80-163 | as written, a save followed by a restore puts back every copied file when no relative path holds `=` |
| SnapshotManager.RestoreSkipsEntriesWithEquals | src/main/java/com/example/refactoring/core/SnapshotManager.java:139-143 | as written, when every copied path holds `=`, the restore skips all of them and restores nothing |
| SnapshotManager.FirstEntry | src/main/java/com/example/refactoring/core/SnapshotManager.java:142 | corrected: exactly the two header lines are skipped |
| SnapshotManager.SaveThenRestoreCorrected | src/main/java/com/example/refactoring/core/SnapshotManager.java:80-163 | with the corrected header skip, a save followed by a restore puts back every copied file, whatever its name |

## Left out

- File and process I/O is not modelled: reading and writing sources, `pom.xml` parsing and
  transforming, copying and deleting snapshot files, logging, dates.
  - What such I/O would produce is an input of the model instead: file existence, file lines,
    parsed manifests, the timestamp, the working directory, and `isFile`.
  - `copyFile`, `deleteDirectory` and `mkdirs` appear only through their effect on the
    `SnapshotStore`.
- The MCP server, the command-line front end, the demo classes and the model builder are not
  part of this model.
  - The built Spoon model is an input: a `null` model gives the failure "无法构建代码模型".
  - The list of files written is an input.
  - Whether the refactoring crosses modules is a `bool` input. `isCrossModule` and
    `findNearestPom` walk the file system.
- Exceptions are not modelled, because the model has no source of exceptions. This covers
  Spoon exceptions in a handler, and the catch-all failures "重构失败" and "方法迁移失败" with
  their rollback.
- Method bodies are sequences of references (calls, field accesses, `this` arguments,
  comments) together with their source text. After an element is edited, the text is not
  re-rendered.
- `ClassFinder.isAncestorClass`, `getAllAncestorClasses` and `collectAllDescendantClasses`
  are called by the source but are not part of it. They are modelled as `IsStrictAncestor`,
  `Ancestors` and `Descendants`, from their use in the orchestrator and in
  `FieldPullUpHandler.collectAllDescendantClasses`.
- `cleanInvalidOverrides` is called by the orchestrator but not defined in the source, so
  it is not part of this model.
- The orchestrator's `getMethodNames`, `getClassNames` and `restoreSnapshot` only call on
  into other classes. They are modelled where they are implemented: `ClassFinder` and
  `SnapshotManager`.
- The orchestrator's step that adds imports after the migration
  (`RefactoringOrchestrator.java:299-300`) is not part of the modelled pipeline.
  `ImportManager` models what that step does.
- `SuperCallHandler.redirectSuperCall` is deprecated and never called, so it is not part of
  this model.
- `ReturnTypeAdjuster`'s `visitCtReturn` scanner does nothing, so it is not part of this
  model.
- Several `CodeGenerator` operations act only on files and the printer:
  `writeAllResults`, `writeType`, `fallbackWriteResults`,
  `generateFullFileContentWithAutoImports` and `getOrCreateCompilationUnit`. They fall back
  on an exception and pretty-print, so they are not modelled. What is modelled is the plan
  of which files are overwritten, and the relative path each one gets.
- `ImportManager.collectTypeReferences` walks Spoon's element tree and is not part of this
  model. The type references it collects are an input.
- `PomDependencyManager.resolveGroupIdForArtifact` reads the manifests up the directory tree.
  The model takes the groupId it finds as an input, and models only the fallback to
  `org.jhotdraw`.
- `locateModuleRoot` walks the file system. The manifest each changed file leads to is an
  input.
- `ModuleResolver`'s module discovery (`discoverModuleRoots`, `collectModulesRecursively`)
  walks directories, so its result is an input. So is reading a module's coordinates
  (`readModuleCoords`): `None` stands for an unreadable manifest or a missing artifactId.
- `Files.walk` order is an input too: the files of a module are the order the walk yields.
- `Files.readAllLines` is modelled as splitting on `\n` only. The model does not treat `\r`
  as a line end.
- Paths use `/` as the only separator, and there are no drive letters.
- `SnapshotManager.DetermineProjectRoot`: the fallback for a `null` common ancestor
  (`SnapshotManager.java:43-46`) is not reachable for absolute paths, because
  `commonAncestor` then returns at least the root. For the same reason the exception
  fallback to the working directory is not modelled.
- PomDependencyManager.AppendIdempotent: it holds only for artifactIds with no white space
  around them and not empty. The source reads listed ids back trimmed, so a padded id would
  be appended again.
- PomDependencyManager.FixMissingModuleDependencies: its contract states only which
  manifests stay untouched. What a targeted manifest gains is stated per call by
  `EnsureDependenciesInPom`. Stating the effect of several files on one manifest across the
  loop was not attempted.

- The pipeline runs the corrected member where a finding below shows the source wrong, so
  the members listed next describe the corrected behaviour, not the code as written. Each
  as-written member is stated and proved on its own.
- PerformPreChecks: it runs `CheckConflictCorrected` where `RefactoringOrchestrator.java:230`
  calls `checkConflict`. The two agree whenever the method has parameters
  (`CorrectedAgreesWithParameters`); for a parameterless clash the code as written accepts
  (`ParameterlessClashAccepted`).
- PreChecks: uses the corrected conflict check, as PerformPreChecks does.
- PreChecksOutcome: states the outcome of the corrected conflict check.
- PullUpMethodToAncestor: runs the corrected conflict check and the corrected dependents.
- PullUpMethod: runs the corrected conflict check and the corrected dependents.
- PullUpOutcome: pulling `long size()` up over `int size()` is a CONFLICT failure here; the
  code as written succeeds.
- CollectDependentMethods: the corrected version. As written a recursive private method is
  among its own dependents (`DependentsAsWritten`, `SelfCallCollectedAsWritten`).
- DependentMethodsPullUp: built on the corrected dependents.
- PullUpDependentMethods: built on the corrected dependents.
- PullUpFailsOnlyOnClash: stated for the corrected dependents.
- PullUpDeclaresDependencies: stated for the corrected dependents.
- SucceededWithDependents: stated for the corrected dependents.
- PullUpDependents: moves the corrected dependents.
- DependentsMoved: stated for the corrected dependents.
- CloneAdded: appends the copy. Spoon's `addMethod` replaces a method with the same name
  and parameter types instead. The corrected conflict check rejects a destination that
  holds such a method, so in the modelled pipeline the two do not differ. They differ only
  on the path the code as written lets through (`ParameterlessClashAccepted`).
- PerformMethodMigration: adds the copy by appending, as CloneAdded does.
- AddAndAlign: adds the copy by appending, as CloneAdded does.
- CopyAlignedEffect: stated for the appending CloneAdded.
- MigrationEffect: stated for the appending CloneAdded.
- RemoveSuperCall: the corrected version keeps the explanatory comment in place of the call.
  As written the comment is deleted with the call (`RemovalCommentLost`).
- CallHandled: uses the corrected RemoveSuperCall.
- HandleSingleSuperCall: uses the corrected RemoveSuperCall.
- HandleSuperCalls: uses the corrected RemoveSuperCall.
- FirstSourceRoot: tests containment by whole directory names (`sp + "/"` as a prefix). As
  written it is a plain string prefix (`RelativePathAsWritten`, `RelativePathPrefixClash`).
- RelativePath: the corrected version, as FirstSourceRoot.
- GetRelativePath: computes the corrected RelativePath.
- TargetFile: places the file by the corrected RelativePath.
- WriteClass: writes where the corrected RelativePath places the file. As written a file
  path equal to a source path throws and nothing is written (`RelativePathOfRootThrows`).
- TargetFiles: uses the corrected RelativePath.
- WriteModifiedClassesOnly: uses the corrected RelativePath.
- WriteClasses: uses the corrected RelativePath.
- RestoreSnapshot: skips exactly the two header lines. As written it skips every leading
  line holding `=` (`FirstEntryAsWritten`, `RestoreSkipsEntriesWithEquals`).
- FindMethod: takes the first match in declaration order. Spoon's `getMethods()` is a set
  sorted by signature, so where several methods share a name the source may find another
  one. The order of members in Spoon's sorted set is not modelled.
- GetMethodNames: lists names in declaration order, not in the signature order of
  `getMethods()`.
- ConcreteIndex: searches in declaration order, not in the signature order of
  `getMethods()`.
- ArityIndex: searches in declaration order, not in the signature order of `getMethods()`.
- FindConcreteIndex: searches in declaration order, not in the signature order of
  `getMethods()`.
- FindMethodInClass: searches in declaration order, not in the signature order of
  `getMethods()`.
- FindConcreteMethodInAncestors: the methods of library shadow classes are not modelled,
  so the search for a concrete method stops at the model's own classes.
- ConcreteFromChain: follows the model's own classes only, as FindConcreteMethodInAncestors.
- ConcreteInAncestorsIsNearest: the nearest concrete method among the model's own
  ancestors; shadow classes' methods are not modelled.

## Findings

All six mismatches below were found by proof. No code was run.

| source | as written | input that shows it | evidently intended | confidence | as-written member | corrected member |
|---|---|---|---|---|---|---|
| src/main/java/com/example/refactoring/handler/MethodPullUpHandler.java:197-205 | `collectDependentMethods` leaves out the method being pulled up by comparing each callee with the copy. When the copy's visibility was raised, as it is for a private method, Spoon's structural equality makes it differ from the original, so the method is not left out. | a private recursive method `count(int n)` that calls `count(n - 1)` | the method itself is never among its dependents | medium (not executed) | MethodPullUp.SelfCallCollectedAsWritten | MethodPullUp.CollectDependentMethods |
| src/main/java/com/example/refactoring/handler/SuperCallHandler.java:397-431 | `removeSuperCall` attaches the explanatory comment to the `super` call statement, then deletes that statement, so the comment is deleted with it | any method body holding a `super.m()` call, once the time comes to remove that call | the comment stays in the body in place of the call | high (not executed) | SuperCallHandler.RemovalCommentLost | SuperCallHandler.RemovalCommentKept |
| src/main/java/com/example/refactoring/core/CodeGenerator.java:330-338 | `getRelativePath` tests containment by string prefix and then cuts one more character. A sibling directory whose name extends a source path is taken for a subdirectory of it, and a file path equal to a source path makes `substring` throw. | source paths `/p/core` and `/p/core-ui` with the file `/p/core-ui/A.java`, which as written goes to `ui/A.java` | containment by whole path names: `A.java` | medium (not executed) | CodeGenerator.RelativePathPrefixClash | CodeGenerator.RelativePathRebuilds |
| src/main/java/com/example/refactoring/checker/MethodConflictChecker.java:142-165 | `couldCauseAmbiguity` looks for a position where the parameter types are related, so two parameterless methods never count as ambiguous | the destination declares `int size()` and the pulled-up method is `long size()`: the check reports it safe, while the same pair with one parameter is a CONFLICT | same-name methods with equal parameter lists that differ in return type conflict | high (not executed) | MethodConflictChecker.ParameterlessClashAccepted | MethodConflictChecker.ParameterlessClashRejected |
| src/main/java/com/example/refactoring/core/SnapshotManager.java:165-174 | `determineProjectRoot` normalises paths only inside `commonAncestor`, so a single source path keeps its `.` and `..`. `toRelativePathWithinProject` then compares texts, so a file named in normal form is not found under that root and its copy keeps only its bare name. | source path `./src`, working directory `/w`, file `/w/src/p/A.java`: the root is `/w/./src`, the entry is `A.java`, and restore writes `/w/./src/A.java` | the root in normal form, `/w/src`, and the entry `p/A.java` | medium (not executed) | SnapshotManager.DotSourcePathFlattens | SnapshotManager.CorrectedRootKeepsTree |
| src/main/java/com/example/refactoring/core/SnapshotManager.java:139-143 | `restoreSnapshot` skips every leading line that holds `=`, meaning to skip only the two header lines. A snapshot whose first copied paths hold `=` loses them on restore. | one copied file `src/a=b/X.java`: the header and the entry all hold `=`, so nothing is restored and the answer is `false` | skip exactly the two header lines | medium (not executed) | SnapshotManager.RestoreSkipsEntriesWithEquals | SnapshotManager.SaveThenRestoreCorrected |
