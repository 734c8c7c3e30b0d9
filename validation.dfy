/**
 * `validateSchema` and `formatAjvErrors`. The Ajv validator itself is
 * opaque: it is represented by the verdict it reports and by its `errors`
 * property, which Ajv leaves `null` after a successful validation.
 */
module Validation {
  import opened Wrappers
  import opened Text

  /** The two fields of an Ajv `ErrorObject` that the formatter reads. */
  datatype AjvError = AjvError(instancePath: string, message: Option<string>)

  datatype ValidationResult = ValidationResult(valid: bool, errors: seq<AjvError>)

  /** `validateSchema`: the verdict is passed through and a missing error list becomes `[]`. */
  function ValidateSchema(verdict: bool, reported: Option<seq<AjvError>>): (r: ValidationResult)
    ensures r.valid == verdict
    ensures reported.None? ==> r.errors == []
    ensures reported.Some? ==> r.errors == reported.value
  {
    ValidationResult(verdict, reported.GetOr([]))
  }

  /** `error.instancePath || "(root)"`: the empty path is the document root. */
  function RenderedPath(e: AjvError): string {
    if e.instancePath == "" then "(root)" else e.instancePath
  }

  /** `error.message ?? "is invalid"`: only a missing message is replaced, an empty one is kept. */
  function RenderedMessage(e: AjvError): string {
    e.message.GetOr("is invalid")
  }

  /** One formatted error line. */
  function FormatAjvError(e: AjvError): (line: string)
    ensures StartsWith(line, RenderedPath(e))
    ensures EndsWith(line, RenderedMessage(e))
    ensures |line| == |RenderedPath(e)| + 1 + |RenderedMessage(e)|
    ensures line[|RenderedPath(e)|] == ' '
  {
    var line := RenderedPath(e) + " " + RenderedMessage(e);
    assert line[..|RenderedPath(e)|] == RenderedPath(e);
    assert line[|line| - |RenderedMessage(e)|..] == RenderedMessage(e);
    line
  }

  /** `formatAjvErrors`: one line per error, in the same order. */
  function FormatAjvErrors(errors: seq<AjvError>): (lines: seq<string>)
    ensures |lines| == |errors|
    ensures forall i :: 0 <= i < |errors| ==> lines[i] == FormatAjvError(errors[i])
  {
    if errors == [] then [] else [FormatAjvError(errors[0])] + FormatAjvErrors(errors[1..])
  }

  /** An error at the root is reported against "(root)". */
  lemma RootPathRendered(e: AjvError)
    requires e.instancePath == ""
    ensures StartsWith(FormatAjvError(e), "(root) ")
  {
    assert FormatAjvError(e)[..7] == "(root)" + " ";
  }

  /** An error without a message reads "<path> is invalid". */
  lemma MissingMessageRendered(e: AjvError)
    requires e.message.None?
    ensures EndsWith(FormatAjvError(e), " is invalid")
  {
    var path := RenderedPath(e);
    var line := FormatAjvError(e);
    assert line == path + " is invalid";
    assert line[|path|..] == " is invalid";
  }

  /**
   * A formatted line can be split back at its first space into the rendered
   * path and the rendered message whenever the path has no space of its own.
   */
  lemma FormatSplitsBack(e: AjvError)
    requires forall i :: 0 <= i < |e.instancePath| ==> e.instancePath[i] != ' '
    ensures var line := FormatAjvError(e); var k := FirstSpace(line);
      k < |line| && line[..k] == RenderedPath(e) && line[k + 1..] == RenderedMessage(e)
  {
    var p, m := RenderedPath(e), RenderedMessage(e);
    assert forall i :: 0 <= i < |p| ==> p[i] != ' ';
    FirstSpaceAfter(p, m);
    var line := p + " " + m;
    assert line[..|p|] == p;
    assert line[|p| + 1..] == m;
  }

  /** Two errors with space-free paths format alike only when they render alike. */
  lemma FormatInjective(e1: AjvError, e2: AjvError)
    requires forall i :: 0 <= i < |e1.instancePath| ==> e1.instancePath[i] != ' '
    requires forall i :: 0 <= i < |e2.instancePath| ==> e2.instancePath[i] != ' '
    requires FormatAjvError(e1) == FormatAjvError(e2)
    ensures RenderedPath(e1) == RenderedPath(e2) && RenderedMessage(e1) == RenderedMessage(e2)
  {
    FormatSplitsBack(e1);
    FormatSplitsBack(e2);
  }
}
