/** The security policy walker: a validator over an expression tree gated by
    the security-access mask. Unless the mask carries AllowAll, the tree is
    walked and the first node that breaks the policy is reported as a
    SecurityError naming the offending identifier. */
module Security {
  import opened Errors
  import opened Syntax
  import A = Access

  /** The bare-identifier call whitelist built by the walker's constructor:
      the Math method names when AllowMathMethods is set, nothing otherwise.
      The early exit for a zero mask agrees with the flag test. */
  function AllowedMethods(mask: A.Mask, mathNames: set<string>): (allowed: set<string>)
    ensures allowed == (if A.HasFlag(mask, A.AllowMathMethods) then mathNames else {})
    ensures mask == A.None ==> allowed == {}
  {
    if mask == A.None then {}
    else if A.HasFlag(mask, A.AllowMathMethods) then mathNames
    else {}
  }

  /** Visits one node. A member access is checked and never descended into;
      an invocation checks its callee (bare identifier against the
      whitelist, member access against AllowMemberInvokation) and then visits
      all its children, the callee first; every other node visits its
      children. */
  function Walk(mask: A.Mask, allowed: set<string>, e: Expr): Outcome
    decreases e
  {
    match e
    case Literal(_) => Pass
    case Ident(_) => Pass
    case MemberAccess(_, n) =>
      if A.HasFlag(mask, A.AllowMemberAccess) then Pass else Fail(SecurityError(n))
    case Invoke(callee, args) =>
      if callee.Ident? && callee.name !in allowed then Fail(SecurityError(callee.name))
      else if callee.MemberAccess? && !A.HasFlag(mask, A.AllowMemberInvokation) then Fail(SecurityError(callee.member))
      else (
        match Walk(mask, allowed, callee)
        case Fail(err) => Fail(err)
        case Pass => WalkAll(mask, allowed, args))
    case Other(children) => WalkAll(mask, allowed, children)
  }

  /** Visits a list of sibling nodes in order, stopping at the first failure. */
  function WalkAll(mask: A.Mask, allowed: set<string>, es: seq<Expr>): Outcome
    decreases es
  {
    if |es| == 0 then Pass
    else
      match Walk(mask, allowed, es[0])
      case Fail(err) => Fail(err)
      case Pass => WalkAll(mask, allowed, es[1..])
  }

  // ---------------------------------------------------------------------
  // A declarative reading of the policy
  // ---------------------------------------------------------------------

  /** The callee test of an invocation node on its own. */
  predicate CalleePermitted(mask: A.Mask, allowed: set<string>, callee: Expr) {
    && (callee.Ident? ==> callee.name in allowed)
    && (callee.MemberAccess? ==> A.HasFlag(mask, A.AllowMemberInvokation))
  }

  /** Every node the walk visits is allowed. Independent of evaluation order:
      this is what the walk decides. */
  predicate Permits(mask: A.Mask, allowed: set<string>, e: Expr)
    decreases e
  {
    match e
    case Literal(_) => true
    case Ident(_) => true
    case MemberAccess(_, _) => A.HasFlag(mask, A.AllowMemberAccess)
    case Invoke(callee, args) =>
      && CalleePermitted(mask, allowed, callee)
      && Permits(mask, allowed, callee)
      && forall i :: 0 <= i < |args| ==> Permits(mask, allowed, args[i])
    case Other(children) =>
      forall i :: 0 <= i < |children| ==> Permits(mask, allowed, children[i])
  }

  /** The identifiers the walk can name in a rejection: callee names of
      invocations and member names of member accesses. */
  function Culprits(e: Expr): set<string>
    decreases e
  {
    match e
    case Literal(_) => {}
    case Ident(_) => {}
    case MemberAccess(r, n) => {n} + Culprits(r)
    case Invoke(callee, args) =>
      (if callee.Ident? then {callee.name} else {}) + Culprits(callee) + CulpritsAll(args)
    case Other(children) => CulpritsAll(children)
  }

  function CulpritsAll(es: seq<Expr>): set<string>
    decreases es
  {
    if |es| == 0 then {} else Culprits(es[0]) + CulpritsAll(es[1..])
  }

  /** The walk accepts a tree exactly when the declarative policy permits
      it, and every rejection is a SecurityError naming a culprit. */
  lemma {:induction false} WalkDecidesPermits(mask: A.Mask, allowed: set<string>, e: Expr)
    ensures Walk(mask, allowed, e).Pass? <==> Permits(mask, allowed, e)
    ensures Walk(mask, allowed, e).Fail? ==>
      Walk(mask, allowed, e).error.SecurityError? && Walk(mask, allowed, e).error.name in Culprits(e)
    decreases e, 1
  {
    match e
    case Literal(_) =>
    case Ident(_) =>
    case MemberAccess(_, _) =>
    case Invoke(callee, args) =>
      WalkDecidesPermits(mask, allowed, callee);
      WalkAllDecidesPermits(mask, allowed, args);
    case Other(children) =>
      WalkAllDecidesPermits(mask, allowed, children);
  }

  lemma {:induction false} WalkAllDecidesPermits(mask: A.Mask, allowed: set<string>, es: seq<Expr>)
    ensures WalkAll(mask, allowed, es).Pass? <==> forall i :: 0 <= i < |es| ==> Permits(mask, allowed, es[i])
    ensures WalkAll(mask, allowed, es).Fail? ==>
      WalkAll(mask, allowed, es).error.SecurityError? && WalkAll(mask, allowed, es).error.name in CulpritsAll(es)
    decreases es, 0
  {
    if |es| > 0 {
      WalkDecidesPermits(mask, allowed, es[0]);
      WalkAllDecidesPermits(mask, allowed, es[1..]);
      assert forall i :: 1 <= i < |es| ==> es[i] == es[1..][i - 1];
    }
  }

  /** ExpressoSecurity.Check: the whole walk is skipped when the mask carries
      AllowAll; otherwise the tree is accepted exactly when the policy
      permits it, and a rejection names an identifier of the tree. */
  function Check(mask: A.Mask, mathNames: set<string>, e: Expr): (r: Outcome)
    ensures A.HasFlag(mask, A.AllowAll) ==> r == Pass
    ensures r.Pass? <==> A.HasFlag(mask, A.AllowAll) || Permits(mask, AllowedMethods(mask, mathNames), e)
    ensures r.Fail? ==> r.error.SecurityError? && r.error.name in Culprits(e) && r.error.IsParseError()
  {
    if A.HasFlag(mask, A.AllowAll) then Pass
    else
      WalkDecidesPermits(mask, AllowedMethods(mask, mathNames), e);
      Walk(mask, AllowedMethods(mask, mathNames), e)
  }

  // ---------------------------------------------------------------------
  // The rules, one node kind at a time
  // ---------------------------------------------------------------------

  /** Setting the three named flags is not the same as AllowAll: the mask
      0x07 is walked and rejects a call that AllowAll lets through. */
  lemma NamedFlagsDoNotBypass(mathNames: set<string>, f: string, args: seq<Expr>)
    requires f !in mathNames
    ensures Check(0x07, mathNames, Invoke(Ident(f), args)) == Fail(SecurityError(f))
    ensures Check(A.AllowAll, mathNames, Invoke(Ident(f), args)) == Pass
  {
  }

  /** A bare-identifier call `f(...)` is accepted only with AllowMathMethods
      and `f` a Math method name; then only its arguments decide. */
  lemma BareCallRule(mask: A.Mask, mathNames: set<string>, f: string, args: seq<Expr>)
    requires !A.HasFlag(mask, A.AllowAll)
    ensures !(A.HasFlag(mask, A.AllowMathMethods) && f in mathNames) ==>
      Check(mask, mathNames, Invoke(Ident(f), args)) == Fail(SecurityError(f))
    ensures A.HasFlag(mask, A.AllowMathMethods) && f in mathNames ==>
      Check(mask, mathNames, Invoke(Ident(f), args)) == WalkAll(mask, mathNames, args)
  {
    var allowed := AllowedMethods(mask, mathNames);
    assert Walk(mask, allowed, Ident(f)) == Pass;
  }

  /** A member access is rejected unless AllowMemberAccess is set, and an
      allowed one is accepted whatever its receiver holds. */
  lemma MemberAccessRule(mask: A.Mask, mathNames: set<string>, receiver: Expr, n: string)
    requires !A.HasFlag(mask, A.AllowAll)
    ensures !A.HasFlag(mask, A.AllowMemberAccess) ==>
      Check(mask, mathNames, MemberAccess(receiver, n)) == Fail(SecurityError(n))
    ensures A.HasFlag(mask, A.AllowMemberAccess) ==>
      Check(mask, mathNames, MemberAccess(receiver, n)) == Pass
  {
  }

  /** The receiver of an allowed member access is not inspected: a call the
      mask rejects on its own is accepted once it sits under `.n`. */
  lemma ReceiverNotInspected(mathNames: set<string>, f: string, n: string)
    requires f !in mathNames
    ensures Check(A.AllowMemberAccess, mathNames, Invoke(Ident(f), [])) == Fail(SecurityError(f))
    ensures Check(A.AllowMemberAccess, mathNames, MemberAccess(Invoke(Ident(f), []), n)) == Pass
  {
  }

  /** A member invocation `x.n(...)` needs both AllowMemberInvokation (the
      explicit callee test) and AllowMemberAccess (the callee is then visited
      as a member access); with both set only its arguments decide. */
  lemma MemberInvocationRule(mask: A.Mask, mathNames: set<string>, receiver: Expr, n: string, args: seq<Expr>)
    requires !A.HasFlag(mask, A.AllowAll)
    ensures Check(mask, mathNames, Invoke(MemberAccess(receiver, n), args)).Pass? ==>
      A.HasFlag(mask, A.AllowMemberInvokation) && A.HasFlag(mask, A.AllowMemberAccess)
    ensures !(A.HasFlag(mask, A.AllowMemberInvokation) && A.HasFlag(mask, A.AllowMemberAccess)) ==>
      Check(mask, mathNames, Invoke(MemberAccess(receiver, n), args)) == Fail(SecurityError(n))
    ensures A.HasFlag(mask, A.AllowMemberInvokation) && A.HasFlag(mask, A.AllowMemberAccess) ==>
      Check(mask, mathNames, Invoke(MemberAccess(receiver, n), args)) ==
      WalkAll(mask, AllowedMethods(mask, mathNames), args)
  {
    var allowed := AllowedMethods(mask, mathNames);
    var callee := MemberAccess(receiver, n);
    assert Walk(mask, allowed, callee) ==
      if A.HasFlag(mask, A.AllowMemberAccess) then Pass else Fail(SecurityError(n));
  }

  /** The arguments of an accepted invocation are accepted on their own:
      every child of an invocation is visited. */
  lemma ArgumentsAreChecked(mask: A.Mask, mathNames: set<string>, callee: Expr, args: seq<Expr>, i: nat)
    requires i < |args|
    requires Check(mask, mathNames, Invoke(callee, args)).Pass?
    ensures Check(mask, mathNames, args[i]).Pass?
  {
  }

  // ---------------------------------------------------------------------
  // Trees without calls, and the empty mask
  // ---------------------------------------------------------------------

  /** No invocation and no member access anywhere in the tree. */
  predicate CallFree(e: Expr)
    decreases e
  {
    match e
    case Literal(_) => true
    case Ident(_) => true
    case MemberAccess(_, _) => false
    case Invoke(_, _) => false
    case Other(children) => forall i :: 0 <= i < |children| ==> CallFree(children[i])
  }

  lemma {:induction false} CallFreePermitted(mask: A.Mask, allowed: set<string>, e: Expr)
    requires CallFree(e)
    ensures Permits(mask, allowed, e)
    decreases e
  {
    match e
    case Literal(_) =>
    case Ident(_) =>
    case Other(children) =>
      forall i | 0 <= i < |children|
        ensures Permits(mask, allowed, children[i])
      {
        CallFreePermitted(mask, allowed, children[i]);
      }
  }

  /** A tree with no invocation and no member access is accepted under every
      mask, None included. */
  lemma CallFreeAlwaysAccepted(mask: A.Mask, mathNames: set<string>, e: Expr)
    requires CallFree(e)
    ensures Check(mask, mathNames, e) == Pass
  {
    CallFreePermitted(mask, AllowedMethods(mask, mathNames), e);
  }

  /** No member access and no bare-identifier call anywhere in the tree. */
  predicate NoNamedCallOrAccess(e: Expr)
    decreases e
  {
    match e
    case Literal(_) => true
    case Ident(_) => true
    case MemberAccess(_, _) => false
    case Invoke(callee, args) =>
      && !callee.Ident?
      && NoNamedCallOrAccess(callee)
      && forall i :: 0 <= i < |args| ==> NoNamedCallOrAccess(args[i])
    case Other(children) => forall i :: 0 <= i < |children| ==> NoNamedCallOrAccess(children[i])
  }

  lemma {:induction false} NonePermits(e: Expr)
    ensures Permits(A.None, {}, e) <==> NoNamedCallOrAccess(e)
    decreases e
  {
    match e
    case Literal(_) =>
    case Ident(_) =>
    case MemberAccess(_, _) =>
    case Invoke(callee, args) =>
      NonePermits(callee);
      forall i | 0 <= i < |args|
        ensures Permits(A.None, {}, args[i]) <==> NoNamedCallOrAccess(args[i])
      {
        NonePermits(args[i]);
      }
    case Other(children) =>
      forall i | 0 <= i < |children|
        ensures Permits(A.None, {}, children[i]) <==> NoNamedCallOrAccess(children[i])
      {
        NonePermits(children[i]);
      }
  }

  /** Under the mask None a tree is accepted exactly when it holds no
      bare-identifier call and no `.` member access: bare parameters pass,
      `Abs(x)`, `s.Length` and `x.GetType()` are all rejected. Forms the walker
      has no visit for (`x?.GetType()`, `new T(...)`) are `Other` nodes and
      pass. */
  lemma NoneAcceptsExactly(mathNames: set<string>, e: Expr)
    ensures Check(A.None, mathNames, e).Pass? <==> NoNamedCallOrAccess(e)
  {
    NonePermits(e);
  }
}
