/** The `name` attribute's validator (`validateRecordNameTrailingDot`). */
module RecordName {

  /** The two errors the validator can report. */
  datatype NameError =
    | EmptyName                                       // "the empty string is not a valid name field value"
    | MissingTrailingDot(key: string, value: string)  // names the attribute and the offending value

  /** The validator's `(warnings, errors)` pair. */
  datatype Diagnostics = Diagnostics(warnings: seq<string>, errors: seq<NameError>)

  predicate EndsWithDot(value: string) {
    |value| > 0 && value[|value| - 1] == '.'
  }

  /** Validates the value `value` of attribute `k`: it must end with a dot. */
  function ValidateTrailingDot(value: string, k: string): (d: Diagnostics)
    ensures d.warnings == []
    ensures d.errors == [] <==> EndsWithDot(value)
    ensures |d.errors| <= 1
    ensures value == "" ==> d.errors == [EmptyName]
    ensures value != "" && !EndsWithDot(value) ==> d.errors == [MissingTrailingDot(k, value)]
  {
    if |value| == 0 then
      Diagnostics([], [EmptyName])
    else if value[|value| - 1..] != "." then
      Diagnostics([], [MissingTrailingDot(k, value)])
    else
      Diagnostics([], [])
  }

  /** Only the last character matters: appending a dot to any name makes it valid. */
  lemma DotMakesValid(name: string, k: string)
    ensures ValidateTrailingDot(name + ".", k).errors == []
  {
    assert (name + ".")[|name|] == '.';
  }

  /** `""` and `"example.com"` are rejected, `"example.com."` is accepted. */
  lemma ValidationExamples(k: string)
    ensures ValidateTrailingDot("", k).errors == [EmptyName]
    ensures ValidateTrailingDot("example.com", k).errors == [MissingTrailingDot(k, "example.com")]
    ensures ValidateTrailingDot("example.com.", k).errors == []
  {
    assert "example.com"[10] == 'm';
    assert "example.com."[11] == '.';
  }
}
