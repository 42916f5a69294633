/** The numeric-literal rewrite: when ForceNumericDouble is set, every
    numeric literal whose value is not a double is replaced by a double
    literal; nothing else in the tree changes. */
module Rewriter {
  import opened Syntax
  import Security
  import A = Access

  /** VisitLiteralExpression on the literal's kind. */
  function RewriteLiteral(force: bool, k: LiteralKind): LiteralKind {
    if force && k.Numeric? && k.numeric != Double then Numeric(Double) else k
  }

  // ---------------------------------------------------------------------
  // What the rewrite is meant to do, stated independently of it
  // ---------------------------------------------------------------------

  /** `r` has the shape of `e`: the same nodes with the same names, where a
      literal either keeps its kind or is a numeric literal turned double. */
  predicate Corresponds(e: Expr, r: Expr)
    decreases e
  {
    match e
    case Literal(k) => r.Literal? && (r.kind == k || (k.Numeric? && r.kind == Numeric(Double)))
    case Ident(_) => r == e
    case MemberAccess(x, n) => r.MemberAccess? && r.member == n && Corresponds(x, r.receiver)
    case Invoke(c, args) => r.Invoke? && Corresponds(c, r.callee) && CorrespondsAll(args, r.args)
    case Other(cs) => r.Other? && CorrespondsAll(cs, r.children)
  }

  predicate CorrespondsAll(es: seq<Expr>, rs: seq<Expr>)
    decreases es
  {
    |es| == |rs| && (|es| > 0 ==> Corresponds(es[0], rs[0]) && CorrespondsAll(es[1..], rs[1..]))
  }

  /** Every numeric literal of the tree is a double literal. */
  predicate DoublesOnly(e: Expr)
    decreases e
  {
    match e
    case Literal(k) => k.Numeric? ==> k.numeric == Double
    case Ident(_) => true
    case MemberAccess(x, _) => DoublesOnly(x)
    case Invoke(c, args) => DoublesOnly(c) && DoublesOnlyAll(args)
    case Other(cs) => DoublesOnlyAll(cs)
  }

  predicate DoublesOnlyAll(es: seq<Expr>)
    decreases es
  {
    |es| > 0 ==> DoublesOnly(es[0]) && DoublesOnlyAll(es[1..])
  }

  // ---------------------------------------------------------------------
  // The rewriter
  // ---------------------------------------------------------------------

  /** The rewriting visitor: every node is rebuilt from its rewritten
      children, and only literal nodes change. */
  function Visit(force: bool, e: Expr): (r: Expr)
    ensures Corresponds(e, r)
    ensures force ==> DoublesOnly(r)
    decreases e
  {
    match e
    case Literal(k) => Literal(RewriteLiteral(force, k))
    case Ident(_) => e
    case MemberAccess(x, n) => MemberAccess(Visit(force, x), n)
    case Invoke(c, args) => Invoke(Visit(force, c), VisitAll(force, args))
    case Other(cs) => Other(VisitAll(force, cs))
  }

  function VisitAll(force: bool, es: seq<Expr>): (rs: seq<Expr>)
    ensures CorrespondsAll(es, rs)
    ensures force ==> DoublesOnlyAll(rs)
    decreases es
  {
    if |es| == 0 then []
    else
      var rs := [Visit(force, es[0])] + VisitAll(force, es[1..]);
      assert rs[0] == Visit(force, es[0]) && rs[1..] == VisitAll(force, es[1..]);
      rs
  }

  /** ExpressoRewriter.Rewrite: the identity unless ForceNumericDouble is
      set; then a tree of the same shape whose numeric literals are all
      double. */
  function Rewrite(force: bool, e: Expr): (r: Expr)
    ensures !force ==> r == e
    ensures Corresponds(e, r)
    ensures force ==> DoublesOnly(r)
  {
    if !force then
      CorrespondsReflexive(e);
      e
    else Visit(force, e)
  }

  // ---------------------------------------------------------------------
  // Properties
  // ---------------------------------------------------------------------

  lemma {:induction false} CorrespondsReflexive(e: Expr)
    ensures Corresponds(e, e)
    decreases e, 1
  {
    match e
    case Literal(_) =>
    case Ident(_) =>
    case MemberAccess(x, _) => CorrespondsReflexive(x);
    case Invoke(c, args) => CorrespondsReflexive(c); CorrespondsAllReflexive(args);
    case Other(cs) => CorrespondsAllReflexive(cs);
  }

  lemma {:induction false} CorrespondsAllReflexive(es: seq<Expr>)
    ensures CorrespondsAll(es, es)
    decreases es, 0
  {
    if |es| > 0 {
      CorrespondsReflexive(es[0]);
      CorrespondsAllReflexive(es[1..]);
    }
  }

  /** Corresponding shape plus double-only literals pin the result down:
      the contract of Rewrite with the flag set has exactly one solution. */
  lemma {:induction false} RewriteResultUnique(e: Expr, r1: Expr, r2: Expr)
    requires Corresponds(e, r1) && DoublesOnly(r1)
    requires Corresponds(e, r2) && DoublesOnly(r2)
    ensures r1 == r2
    decreases e, 1
  {
    match e
    case Literal(_) =>
    case Ident(_) =>
    case MemberAccess(x, _) => RewriteResultUnique(x, r1.receiver, r2.receiver);
    case Invoke(c, args) =>
      RewriteResultUnique(c, r1.callee, r2.callee);
      RewriteResultUniqueAll(args, r1.args, r2.args);
    case Other(cs) => RewriteResultUniqueAll(cs, r1.children, r2.children);
  }

  lemma {:induction false} RewriteResultUniqueAll(es: seq<Expr>, rs1: seq<Expr>, rs2: seq<Expr>)
    requires CorrespondsAll(es, rs1) && DoublesOnlyAll(rs1)
    requires CorrespondsAll(es, rs2) && DoublesOnlyAll(rs2)
    ensures rs1 == rs2
    decreases es, 0
  {
    if |es| > 0 {
      RewriteResultUnique(es[0], rs1[0], rs2[0]);
      RewriteResultUniqueAll(es[1..], rs1[1..], rs2[1..]);
      assert rs1 == [rs1[0]] + rs1[1..] && rs2 == [rs2[0]] + rs2[1..];
    }
  }

  /** A numeric literal that is not a double becomes a double literal; a
      double literal and every non-numeric literal are left as they are. */
  lemma LiteralRule(force: bool, k: LiteralKind)
    ensures force && k.Numeric? ==> Rewrite(force, Literal(k)) == Literal(Numeric(Double))
    ensures !k.Numeric? || k.numeric == Double ==> Rewrite(force, Literal(k)) == Literal(k)
  {
  }

  /** A tree whose numeric literals are already double is a fixed point. */
  lemma {:induction false} DoublesOnlyFixed(e: Expr)
    requires DoublesOnly(e)
    ensures Visit(true, e) == e
    decreases e, 1
  {
    match e
    case Literal(_) =>
    case Ident(_) =>
    case MemberAccess(x, _) => DoublesOnlyFixed(x);
    case Invoke(c, args) => DoublesOnlyFixed(c); DoublesOnlyFixedAll(args);
    case Other(cs) => DoublesOnlyFixedAll(cs);
  }

  lemma {:induction false} DoublesOnlyFixedAll(es: seq<Expr>)
    requires DoublesOnlyAll(es)
    ensures VisitAll(true, es) == es
    decreases es, 0
  {
    if |es| > 0 {
      DoublesOnlyFixed(es[0]);
      DoublesOnlyFixedAll(es[1..]);
      assert [es[0]] + es[1..] == es;
    }
  }

  /** Rewriting twice is rewriting once. */
  lemma RewriteIdempotent(force: bool, e: Expr)
    ensures Rewrite(force, Rewrite(force, e)) == Rewrite(force, e)
  {
    if force {
      DoublesOnlyFixed(Rewrite(force, e));
    }
  }

  /** The rewrite never changes the security verdict, nor the identifier a
      rejection names: literals play no part in the walk. Hence rewriting
      before checking decides the same as checking the parsed tree. */
  lemma {:induction false} WalkIgnoresLiterals(mask: A.Mask, allowed: set<string>, e: Expr, r: Expr)
    requires Corresponds(e, r)
    ensures Security.Walk(mask, allowed, r) == Security.Walk(mask, allowed, e)
    decreases e, 1
  {
    match e
    case Literal(_) =>
    case Ident(_) =>
    case MemberAccess(_, _) =>
    case Invoke(c, args) =>
      WalkIgnoresLiterals(mask, allowed, c, r.callee);
      WalkAllIgnoresLiterals(mask, allowed, args, r.args);
    case Other(cs) =>
      WalkAllIgnoresLiterals(mask, allowed, cs, r.children);
  }

  lemma {:induction false} WalkAllIgnoresLiterals(mask: A.Mask, allowed: set<string>, es: seq<Expr>, rs: seq<Expr>)
    requires CorrespondsAll(es, rs)
    ensures Security.WalkAll(mask, allowed, rs) == Security.WalkAll(mask, allowed, es)
    decreases es, 0
  {
    if |es| > 0 {
      WalkIgnoresLiterals(mask, allowed, es[0], rs[0]);
      WalkAllIgnoresLiterals(mask, allowed, es[1..], rs[1..]);
    }
  }

  lemma CheckAfterRewrite(mask: A.Mask, mathNames: set<string>, force: bool, e: Expr)
    ensures Security.Check(mask, mathNames, Rewrite(force, e)) == Security.Check(mask, mathNames, e)
  {
    WalkIgnoresLiterals(mask, Security.AllowedMethods(mask, mathNames), e, Rewrite(force, e));
  }
}
