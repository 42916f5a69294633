/** The policy pass applied to a parsed expression before it is embedded in
    a unit: the numeric-literal rewrite first, then the security check of the
    rewritten tree. */
module Policy {
  import opened Errors
  import opened Syntax
  import A = Access
  import Security
  import Rewriter
  import Options

  /** Rewrite, then check. On success the rewritten tree is what gets
      embedded; a rejection is the SecurityError the check of the parsed
      tree would report. */
  function Apply(security: A.Mask, force: bool, mathNames: set<string>, e: Expr): (r: Result<Expr>)
    ensures r.Ok? <==> Security.Check(security, mathNames, e).Pass?
    ensures r.Ok? ==> r.value == Rewriter.Rewrite(force, e)
    ensures r.Err? ==> r.error == Security.Check(security, mathNames, e).error && r.error.IsParseError()
  {
    var rewritten := Rewriter.Rewrite(force, e);
    Rewriter.CheckAfterRewrite(security, mathNames, force, e);
    match Security.Check(security, mathNames, rewritten)
    case Pass => Ok(rewritten)
    case Fail(err) => Err(err)
  }

  /** The default field and method options change nothing and reject
      nothing: the pass is the identity under AllowAll without
      ForceNumericDouble. */
  lemma DefaultsAreInert(mathNames: set<string>, e: Expr)
    ensures Apply(Options.DefaultFieldOptions.securityAccess, Options.DefaultFieldOptions.forceNumericDouble, mathNames, e) == Ok(e)
    ensures Apply(Options.DefaultMethodOptions.securityAccess, Options.DefaultMethodOptions.forceNumericDouble, mathNames, e) == Ok(e)
    ensures !Options.DefaultFieldOptions.isDynamic && !Options.DefaultPropertyOptions.isDynamic
    ensures !Options.DefaultParameterOptions.isDynamic && !Options.DefaultMethodOptions.returnsDynamic
    ensures !Options.DefaultMethodOptions.defaultParameterOptions.isDynamic
  {
  }
}
