/** Failure values shared by every stage of the pipeline: the exception
    classes of the library as one error datatype, the Result/Outcome/Option
    wrappers that stand in for throwing, and the toolchain diagnostics whose
    messages are joined into a parse error or CompileError. */
module Errors {

  datatype Option<+T> = None | Some(value: T) {
    function GetOr(default: T): T {
      match this
      case Some(v) => v
      case None => default
    }
  }

  /** The exceptions a caller can observe. Two unrelated classes signal a
      parse failure: ParserError is `Expresso.ParserException` (thrown for a
      method's expression and for a legacy variable's initialiser), ParseError
      is `ExpressoSharp.ExpressoParserException` (thrown for a field's
      initialiser). SecurityError specialises ParseError
      (ExpressoSecurityException derives from ExpressoParserException), see
      IsParseError. */
  datatype Error =
    | ArgumentError(message: string)
    | ParserError(message: string)
    | ParseError(message: string)
    | SecurityError(name: string)
    | CompileError(message: string)
    | NotSupported(message: string)
    | ArgumentNull(paramName: string)
    | NullReference
  {
    /** True for every error a `catch (ExpressoParserException)` would catch;
        a ParserError is not one of them. */
    predicate IsParseError() {
      ParseError? || SecurityError?
    }

    function Message(): string {
      match this
      case ArgumentError(m) => m
      case ParserError(m) => m
      case ParseError(m) => m
      case SecurityError(id) => SecurityMessage(id)
      case CompileError(m) => m
      case NotSupported(m) => m
      case ArgumentNull(n) => "Value cannot be null. (Parameter '" + n + "')"
      case NullReference => "Object reference not set to an instance of an object."
    }
  }

  datatype Result<+T> = Ok(value: T) | Err(error: Error) {
    predicate IsFailure() {
      Err?
    }

    function PropagateFailure<U>(): Result<U>
      requires Err?
    {
      Err(error)
    }

    function Extract(): T
      requires Ok?
    {
      value
    }
  }

  /** The result of an operation that either completes or throws. */
  datatype Outcome = Pass | Fail(error: Error)

  const SecurityPrefix := "The name '"
  const SecuritySuffix := "' does not exist in the current context"

  /** The text of every security rejection, naming the offending identifier. */
  function SecurityMessage(id: string): (msg: string)
    ensures |msg| == |SecurityPrefix| + |id| + |SecuritySuffix|
    ensures msg[|SecurityPrefix|..|SecurityPrefix| + |id|] == id
  {
    SecurityPrefix + id + SecuritySuffix
  }

  /** Two rejections with the same message name the same identifier, so the
      message identifies the culprit. */
  lemma SecurityMessageInjective(a: string, b: string)
    requires SecurityMessage(a) == SecurityMessage(b)
    ensures a == b
  {
    var ma, mb := SecurityMessage(a), SecurityMessage(b);
    assert |a| == |b|;
    assert a == ma[|SecurityPrefix|..|SecurityPrefix| + |a|];
  }

  // ---------------------------------------------------------------------
  // Diagnostics and how their messages are joined
  // ---------------------------------------------------------------------

  datatype Severity = Hidden | Info | Warning | ErrorSeverity

  datatype Diagnostic = Diagnostic(severity: Severity, isWarningAsError: bool, message: string)

  /** The filter applied to parser and emitter diagnostics alike. */
  predicate IsReported(d: Diagnostic) {
    d.isWarningAsError || d.severity == ErrorSeverity
  }

  function CountReported(ds: seq<Diagnostic>): nat {
    if |ds| == 0 then 0 else (if IsReported(ds[0]) then 1 else 0) + CountReported(ds[1..])
  }

  /** The messages of the reported diagnostics, in their original order. */
  function ReportedMessages(ds: seq<Diagnostic>): (msgs: seq<string>)
    ensures |msgs| == CountReported(ds)
    ensures |msgs| <= |ds|
  {
    if |ds| == 0 then []
    else
      var rest := ReportedMessages(ds[1..]);
      if IsReported(ds[0]) then [ds[0].message] + rest else rest
  }

  /** Filtering distributes over concatenation, so the reported messages of
      a diagnostic list appear in list order. */
  lemma {:induction false} ReportedMessagesAppend(a: seq<Diagnostic>, b: seq<Diagnostic>)
    ensures ReportedMessages(a + b) == ReportedMessages(a) + ReportedMessages(b)
    decreases |a|
  {
    if |a| == 0 {
      assert a + b == b;
    } else {
      assert (a + b)[1..] == a[1..] + b;
      ReportedMessagesAppend(a[1..], b);
    }
  }

  /** A diagnostic list has something to report exactly when its joined
      message list is non-empty. */
  lemma {:induction false} ReportedIffAny(ds: seq<Diagnostic>)
    ensures |ReportedMessages(ds)| > 0 <==> exists j :: 0 <= j < |ds| && IsReported(ds[j])
    decreases |ds|
  {
    if |ds| > 0 {
      ReportedIffAny(ds[1..]);
      if exists j :: 0 <= j < |ds| && IsReported(ds[j]) {
        var j :| 0 <= j < |ds| && IsReported(ds[j]);
        if j > 0 {
          assert IsReported(ds[1..][j - 1]);
        }
      }
      if exists j :: 0 <= j < |ds[1..]| && IsReported(ds[1..][j]) {
        var j :| 0 <= j < |ds[1..]| && IsReported(ds[1..][j]);
        assert IsReported(ds[j + 1]);
      }
    }
  }

  /** string.Join("\n", parts). */
  function Join(parts: seq<string>): (s: string)
    ensures |parts| == 1 ==> s == parts[0]
  {
    if |parts| == 0 then ""
    else if |parts| == 1 then parts[0]
    else parts[0] + "\n" + Join(parts[1..])
  }

  /** The inverse of Join: cuts a text at every line break. */
  function Split(s: string): (parts: seq<string>)
    ensures |parts| >= 1
    decreases |s|
  {
    if |s| == 0 then [""]
    else
      var rest := Split(s[1..]);
      if s[0] == '\n' then [""] + rest else [[s[0]] + rest[0]] + rest[1..]
  }

  predicate NoLineBreak(s: string) {
    forall i :: 0 <= i < |s| ==> s[i] != '\n'
  }

  lemma {:induction false} SplitPlain(a: string)
    requires NoLineBreak(a)
    ensures Split(a) == [a]
    decreases |a|
  {
    if |a| > 0 {
      SplitPlain(a[1..]);
      assert [a[0]] + a[1..] == a;
    }
  }

  lemma {:induction false} SplitAtBreak(a: string, b: string)
    requires NoLineBreak(a)
    ensures Split(a + "\n" + b) == [a] + Split(b)
    decreases |a|
  {
    var s := a + "\n" + b;
    if |a| == 0 {
      assert s[0] == '\n' && s[1..] == b;
    } else {
      assert s[0] == a[0];
      assert s[1..] == a[1..] + "\n" + b;
      SplitAtBreak(a[1..], b);
      assert [a[0]] + a[1..] == a;
    }
  }

  /** Joining a non-empty list of single-line messages can be undone: the
      message of a parse error or CompileError keeps every diagnostic apart. */
  lemma {:induction false} SplitJoin(parts: seq<string>)
    requires |parts| >= 1
    requires forall i :: 0 <= i < |parts| ==> NoLineBreak(parts[i])
    ensures Split(Join(parts)) == parts
    decreases |parts|
  {
    if |parts| == 1 {
      SplitPlain(parts[0]);
    } else {
      SplitJoin(parts[1..]);
      SplitAtBreak(parts[0], Join(parts[1..]));
      assert [parts[0]] + parts[1..] == parts;
    }
  }

  /** The other direction: every text is the join of its lines. */
  lemma {:induction false} JoinSplit(s: string)
    ensures Join(Split(s)) == s
    decreases |s|
  {
    if |s| > 0 {
      JoinSplit(s[1..]);
      var rest := Split(s[1..]);
      if s[0] == '\n' {
        assert ([""] + rest)[1..] == rest;
        assert [s[0]] + s[1..] == s;
      } else {
        var parts := [[s[0]] + rest[0]] + rest[1..];
        if |rest| == 1 {
          assert [s[0]] + s[1..] == s;
        } else {
          assert parts[1..] == rest[1..];
          assert Join(rest) == rest[0] + "\n" + Join(rest[1..]);
          assert Join(parts) == [s[0]] + rest[0] + "\n" + Join(rest[1..]);
          assert [s[0]] + s[1..] == s;
        }
      }
    }
  }
}
