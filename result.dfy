/**
 * The result object every refactoring entry point returns: a success flag, a message,
 * warnings collected along the way and the files written.
 */
module RefactoringResults {
  import opened Common

  /** The observable content of a result. */
  datatype Outcome = Outcome(success: bool, message: string, warnings: seq<string>, modifiedFiles: seq<string>)

  /** A list argument that may be `null`: `null` stands for a fresh empty list. */
  function OrEmpty(l: Option<seq<string>>): (r: seq<string>)
    ensures l.None? ==> r == []
    ensures l.Some? ==> r == l.value
  {
    if l.Some? then l.value else []
  }

  /** `Boolean.toString`. */
  function BoolText(b: bool): (r: string)
    ensures r == "true" || r == "false"
    ensures (r == "true") == b
  {
    if b then "true" else "false"
  }

  /** `List.toString` of a list of strings: `[a, b, c]`. */
  function ListText(l: seq<string>): (r: string)
    ensures |r| >= 2 && r[0] == '[' && r[|r| - 1] == ']'
  {
    "[" + Join(l, ", ") + "]"
  }

  /** The text of `toString` for a result with the given content. */
  function OutcomeText(o: Outcome): (r: string)
    ensures StartsWith(r, "RefactoringResult{success=" + BoolText(o.success) + ", message='" + o.message + "'")
    ensures |r| > 0 && r[|r| - 1] == '}'
    ensures o.warnings == [] && o.modifiedFiles == [] ==>
      r == "RefactoringResult{success=" + BoolText(o.success) + ", message='" + o.message + "'}"
  {
    var head := "RefactoringResult{success=" + BoolText(o.success) + ", message='" + o.message + "'";
    var ws := if o.warnings != [] then ", warnings=" + ListText(o.warnings) else "";
    var fs := if o.modifiedFiles != [] then ", modifiedFiles=" + ListText(o.modifiedFiles) else "";
    var tail := ws + fs + "}";
    assert tail[|tail| - 1] == '}';
    PrefixOfConcat(head, tail);
    head + tail
  }

  /** Two results render alike only if they agree on success. */
  lemma TextShowsSuccess(a: Outcome, b: Outcome)
    requires OutcomeText(a) == OutcomeText(b)
    ensures a.success == b.success
  {
    var p := "RefactoringResult{success=";
    var ta := OutcomeText(a);
    assert ta[|p|] == BoolText(a.success)[0] by {
      assert StartsWith(ta, p + BoolText(a.success) + ", message='" + a.message + "'");
    }
    assert ta[|p|] == BoolText(b.success)[0] by {
      assert StartsWith(ta, p + BoolText(b.success) + ", message='" + b.message + "'");
    }
  }

  class RefactoringResult {
    const success: bool
    const message: string
    var warnings: seq<string>
    var modifiedFiles: seq<string>

    function View(): Outcome
      reads this
    {
      Outcome(success, message, warnings, modifiedFiles)
    }

    /** The private constructor: a `null` list becomes an empty one. */
    constructor (success: bool, message: string, warnings: Option<seq<string>>, modifiedFiles: Option<seq<string>>)
      ensures View() == Outcome(success, message, OrEmpty(warnings), OrEmpty(modifiedFiles))
    {
      this.success := success;
      this.message := message;
      this.warnings := OrEmpty(warnings);
      this.modifiedFiles := OrEmpty(modifiedFiles);
    }

    /** `success(message, modifiedFiles)`: no warnings. */
    static method Success(message: string, modifiedFiles: Option<seq<string>>) returns (r: RefactoringResult)
      ensures fresh(r)
      ensures r.View() == Outcome(true, message, [], OrEmpty(modifiedFiles))
    {
      r := new RefactoringResult(true, message, None, modifiedFiles);
    }

    /** `success(message, modifiedFiles, warnings)`: the warnings are kept. */
    static method SuccessWithWarnings(message: string, modifiedFiles: Option<seq<string>>, warnings: Option<seq<string>>)
      returns (r: RefactoringResult)
      ensures fresh(r)
      ensures r.View() == Outcome(true, message, OrEmpty(warnings), OrEmpty(modifiedFiles))
    {
      r := new RefactoringResult(true, message, warnings, modifiedFiles);
    }

    /** `failure(message)`: no warnings and no files. */
    static method Failure(message: string) returns (r: RefactoringResult)
      ensures fresh(r)
      ensures r.View() == Outcome(false, message, [], [])
    {
      r := new RefactoringResult(false, message, None, None);
    }

    /**
     * `getWarnings()`: a copy. A `seq` is a value, so nothing the caller does to the returned
     * list reaches this object.
     */
    method GetWarnings() returns (r: seq<string>)
      ensures r == warnings
    {
      r := warnings;
    }

    /** `getModifiedFiles()`: a copy, as for the warnings. */
    method GetModifiedFiles() returns (r: seq<string>)
      ensures r == modifiedFiles
    {
      r := modifiedFiles;
    }

    /** `addWarning(w)`: one more warning at the end, nothing else changes. */
    method AddWarning(w: string)
      modifies this
      ensures warnings == old(warnings) + [w]
      ensures modifiedFiles == old(modifiedFiles)
    {
      warnings := warnings + [w];
    }

    /** `toString()`. */
    function ToString(): (r: string)
      reads this
      ensures StartsWith(r, "RefactoringResult{success=" + BoolText(success) + ", message='" + message + "'")
    {
      OutcomeText(View())
    }
  }
}
