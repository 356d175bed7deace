/** The three error kinds and their textual form. */
module Errors {
  import opened Wrappers
  import opened Positions

  datatype ErrorKind = IllegalCharacter | InvalidSyntax | RuntimeError

  /** The error name that prefixes every message. */
  function KindName(k: ErrorKind): string
  {
    match k
    case IllegalCharacter => "Illegal Character"
    case InvalidSyntax => "Invalid Syntax"
    case RuntimeError => "Runtime Error"
  }

  /** An error with its span (either end may be absent) and its details. */
  datatype Error = Error(kind: ErrorKind, start: Option<Position>, end: Option<Position>, details: string)

  /** The traceback header of a runtime error. The context chain it walks never
      contributes text, so the header is followed directly by the error name. */
  const TracebackHeader: string := "Traceback (most recent call last):"

  function AsString(e: Error): string
  {
    var body := KindName(e.kind) + ": " + e.details;
    if e.kind == RuntimeError then TracebackHeader + body else body
  }

  /** Reads an error's kind and details back from its textual form. */
  function FromString(s: string): Option<(ErrorKind, string)>
  {
    if IsPrefix(TracebackHeader + "Runtime Error: ", s) then
      Some((RuntimeError, s[|TracebackHeader + "Runtime Error: "|..]))
    else if IsPrefix("Illegal Character: ", s) then
      Some((IllegalCharacter, s[|"Illegal Character: "|..]))
    else if IsPrefix("Invalid Syntax: ", s) then
      Some((InvalidSyntax, s[|"Invalid Syntax: "|..]))
    else None
  }

  predicate IsPrefix(p: string, s: string)
  {
    |p| <= |s| && s[..|p|] == p
  }

  /** The textual form loses nothing but the span: kind and details are recovered. */
  lemma FromStringAsString(e: Error)
    ensures FromString(AsString(e)) == Some((e.kind, e.details))
  {
    var s := AsString(e);
    match e.kind
    case RuntimeError =>
      assert s == (TracebackHeader + "Runtime Error: ") + e.details;
    case IllegalCharacter =>
      assert s == "Illegal Character: " + e.details;
      assert !IsPrefix(TracebackHeader + "Runtime Error: ", s) by {
        assert s[0] != (TracebackHeader + "Runtime Error: ")[0];
      }
    case InvalidSyntax =>
      assert s == "Invalid Syntax: " + e.details;
      assert !IsPrefix(TracebackHeader + "Runtime Error: ", s) by {
        assert s[0] != (TracebackHeader + "Runtime Error: ")[0];
      }
      assert !IsPrefix("Illegal Character: ", s) by {
        assert s[1] != "Illegal Character: "[1];
      }
  }
}
