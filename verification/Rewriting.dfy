/**
 What it means for one body to be another rewritten bottom-up: a relation
 between the two, form by form, that says what may differ and where.
 */
module Rewriting {
  import opened Wrappers
  import opened Ir
  import opened Visitor

  /** What may become of a type, of a class name and constructor index, and of a node whose children
      have been rewritten.  Without `defaults` a lambda's parameters stay as they are. */
  datatype Rule = Rule(ty: (Type, Type) -> bool, site: (string, Site, Site) -> bool, node: (Expr, Expr) -> bool,
                       defaults: bool)

  function Unchanged(): Rule {
    Rule((t, u) => t == u, (usr, s, z) => s == z, (e, d) => e == d, true)
  }

  // ----- types -----

  ghost predicate TypeTo(r: Rule, t: Type, out: Type)
    decreases t, 1
  {
    exists mid :: TypeInside(r, t, mid) && r.ty(mid, out)
  }

  ghost predicate TypeInside(r: Rule, t: Type, mid: Type)
    decreases t, 0
  {
    match t
    case List(e) => mid.List? && TypeTo(r, e, mid.element)
    case Set(e) => mid.Set? && TypeTo(r, e, mid.element)
    case Nullable(e) => mid.Nullable? && TypeTo(r, e, mid.element)
    case ListCursor(e) => mid.ListCursor? && TypeTo(r, e, mid.element)
    case Map(k, v) => mid.Map? && TypeTo(r, k, mid.key) && TypeTo(r, v, mid.value)
    case Pair(a, b) => mid.Pair? && TypeTo(r, a, mid.first) && TypeTo(r, b, mid.second)
    case Callback(x, ps) => mid.Callback? && TypeTo(r, x, mid.result) && TypesTo(r, ps, mid.parameters)
    case Tuple(es) => mid.Tuple? && TypesTo(r, es, mid.elements)
    case _ => mid == t
  }

  ghost predicate TypesTo(r: Rule, ts: seq<Type>, out: seq<Type>)
    decreases ts, 0
  {
    |out| == |ts| && (ts == [] || (TypeTo(r, ts[0], out[0]) && TypesTo(r, ts[1..], out[1..])))
  }

  // ----- expressions -----

  ghost predicate ExprTo(r: Rule, e: Expr, out: Expr)
    decreases e, 1
  {
    exists mid :: ExprInside(r, e, mid) && r.node(mid, out)
  }

  /** `mid` is `e` with its children, its types and its class name rewritten. */
  ghost predicate ExprInside(r: Rule, e: Expr, mid: Expr)
    decreases e, 0
  {
    match e
    case Ref(n, ty, o) => mid.Ref? && mid.name == n && mid.origin == o && TypeTo(r, ty, mid.ty)
    case This(ty, o) => mid.This? && mid.origin == o && TypeTo(r, ty, mid.ty)
    case Binary(op, x, y, ty, o) =>
      mid.Binary? && mid.op == op && mid.origin == o && TypeTo(r, ty, mid.ty)
      && ExprTo(r, x, mid.lhs) && ExprTo(r, y, mid.rhs)
    case Conditional(c, t, f, ty, o) =>
      mid.Conditional? && mid.origin == o && TypeTo(r, ty, mid.ty)
      && ExprTo(r, c, mid.condition) && ExprTo(r, t, mid.thenExpr) && ExprTo(r, f, mid.elseExpr)
    case Is(x, ty, o) => mid.Is? && mid.origin == o && TypeTo(r, ty, mid.targetType) && ExprTo(r, x, mid.operand)
    case AssignExpr(t, v, ty, o) =>
      mid.AssignExpr? && mid.origin == o && TypeTo(r, ty, mid.ty) && ExprTo(r, t, mid.target)
      && ExprTo(r, v, mid.rvalue)
    case FieldAccess(t, field, ty, o) =>
      mid.FieldAccess? && mid.field == field && mid.origin == o && TypeTo(r, ty, mid.ty) && ExprTo(r, t, mid.target)
    case Call(_, _, _, _, _, _, _) => CallInside(r, e, mid)
    case RecordConstruct(usr, n, names, args, o) =>
      mid.RecordConstruct? && mid.typeUsr == usr && mid.fieldNames == names && mid.origin == o
      && r.site(usr, Site(n, None), Site(mid.typeName, None)) && ExprsTo(r, args, mid.args)
    case RecordCopy(t, usr, n, o) =>
      mid.RecordCopy? && mid.typeUsr == usr && mid.typeName == n && mid.origin == o && ExprTo(r, t, mid.target)
    case ConstructorCall(usr, n, k, args, o) =>
      mid.ConstructorCall? && mid.typeUsr == usr && mid.origin == o
      && r.site(usr, Site(n, Some(k)), Site(mid.typeName, Some(mid.constructorIndex))) && ExprsTo(r, args, mid.args)
    case Lambda(params, body, ty, o) =>
      mid.Lambda? && mid.origin == o && TypeTo(r, ty, mid.ty)
      && (if r.defaults then ParamsTo(r, params, mid.params) else mid.params == params) && StmtsTo(r, body, mid.body)
    case UnsupportedTyped(reason, ty, o) =>
      mid.UnsupportedTyped? && mid.reason == reason && mid.origin == o && TypeTo(r, ty, mid.ty)
    case _ => mid == e
  }

  ghost predicate CallInside(r: Rule, e: Expr, mid: Expr)
    requires e.Call?
    decreases e, 0, 0
  {
    && mid.Call? && mid.baseQualifier == e.baseQualifier && mid.calleeUsr == e.calleeUsr
    && mid.calleeName == e.calleeName && mid.origin == e.origin && mid.receiver.Some? == e.receiver.Some?
    && (e.receiver.Some? ==> ExprTo(r, e.receiver.value, mid.receiver.value))
    && ExprsTo(r, e.args, mid.args) && TypeTo(r, e.ty, mid.ty)
  }

  ghost predicate ExprsTo(r: Rule, es: seq<Expr>, out: seq<Expr>)
    decreases es, 0
  {
    |out| == |es| && (es == [] || (ExprTo(r, es[0], out[0]) && ExprsTo(r, es[1..], out[1..])))
  }

  ghost predicate OptionTo(r: Rule, e: Option<Expr>, out: Option<Expr>)
    decreases e, 0
  {
    out.Some? == e.Some? && (e.Some? ==> ExprTo(r, e.value, out.value))
  }

  ghost predicate ParamsTo(r: Rule, ps: seq<Param>, out: seq<Param>)
    decreases ps, 0
  {
    |out| == |ps|
    && (ps == [] || (out[0].name == ps[0].name && TypeTo(r, ps[0].ty, out[0].ty)
                     && OptionTo(r, ps[0].defaultValue, out[0].defaultValue) && ParamsTo(r, ps[1..], out[1..])))
  }

  // ----- statements -----

  ghost predicate StmtsTo(r: Rule, ss: seq<Stmt>, out: seq<Stmt>)
    decreases ss, 0
  {
    |out| == |ss| && (ss == [] || (StmtTo(r, ss[0], out[0]) && StmtsTo(r, ss[1..], out[1..])))
  }

  ghost predicate StmtTo(r: Rule, s: Stmt, out: Stmt)
    decreases s, 1
  {
    match s
    case Return(e) => out.Return? && OptionTo(r, e, out.result)
    case VarDecl(n, ty, e) => out.VarDecl? && out.name == n && TypeTo(r, ty, out.ty) && OptionTo(r, e, out.init)
    case Assign(n, e) => out.Assign? && out.name == n && ExprTo(r, e, out.value)
    case FieldAssign(t, field, e) =>
      out.FieldAssign? && out.field == field && ExprTo(r, t, out.target) && ExprTo(r, e, out.value)
    case If(c, t, f) =>
      out.If? && ExprTo(r, c, out.condition) && StmtsTo(r, t, out.thenBranch) && StmtsTo(r, f, out.elseBranch)
    case While(c, b) => out.While? && ExprTo(r, c, out.condition) && StmtsTo(r, b, out.body)
    case DoWhile(b, c) => out.DoWhile? && StmtsTo(r, b, out.body) && ExprTo(r, c, out.condition)
    case For(_, _, _, _) => ForTo(r, s, out)
    case ForEach(n, ty, e, b) =>
      out.ForEach? && out.name == n && TypeTo(r, ty, out.ty) && ExprTo(r, e, out.iterable) && StmtsTo(r, b, out.body)
    case ExprStmt(e) => out.ExprStmt? && ExprTo(r, e, out.expr)
    case Throw(e) => out.Throw? && ExprTo(r, e, out.value)
    case TryCatch(t, ty, n, c) =>
      out.TryCatch? && out.catchVar == n && TypeTo(r, ty, out.catchType)
      && StmtsTo(r, t, out.tryBody) && StmtsTo(r, c, out.catchBody)
    case TryFinally(t, f) => out.TryFinally? && StmtsTo(r, t, out.tryBody) && StmtsTo(r, f, out.finallyBody)
    case Switch(e, cases, hasDefault, d) =>
      out.Switch? && out.hasDefault == hasDefault && ExprTo(r, e, out.scrutinee)
      && CasesTo(r, cases, out.cases) && StmtsTo(r, d, out.default)
    case _ => out == s
  }

  ghost predicate ForTo(r: Rule, s: Stmt, out: Stmt)
    requires s.For?
    decreases s, 0
  {
    && out.For? && out.start.Some? == s.start.Some? && (s.start.Some? ==> StmtTo(r, s.start.value, out.start.value))
    && OptionTo(r, s.test, out.test)
    && out.increment.Some? == s.increment.Some?
    && (s.increment.Some? ==> StmtTo(r, s.increment.value, out.increment.value))
    && StmtsTo(r, s.body, out.body)
  }

  ghost predicate CasesTo(r: Rule, cases: seq<SwitchCase>, out: seq<SwitchCase>)
    decreases cases, 0
  {
    |out| == |cases|
    && (cases == []
        || (out[0].tag == cases[0].tag && ExprsTo(r, cases[0].values, out[0].values)
            && StmtsTo(r, cases[0].body, out[0].body) && CasesTo(r, cases[1..], out[1..])))
  }

  // ----- the traversal is such a rewriting -----

  function Landed(h: Hooks, usr: string, s: Site): Site {
    var z := h.onConstruct(usr, s);
    Site(z.name, if s.index.Some? && z.index.Some? then z.index else s.index)
  }

  /** The hooks do at each type, site and node what the rule allows there. */
  ghost predicate Follows(h: Hooks, r: Rule) {
    && (forall t :: r.ty(t, h.onType(t)))
    && (forall usr, s :: r.site(usr, s, Landed(h, usr, s)))
    && (forall e :: r.node(e, h.onExpr(e)))
  }

  lemma {:induction false} VisitedType(h: Hooks, r: Rule, t: Type)
    requires Follows(h, r)
    ensures TypeTo(r, t, VisitType(h, t))
    decreases t, 0
  {
    var mid := match t
      case List(e) => Type.List(VisitType(h, e))
      case Set(e) => Type.Set(VisitType(h, e))
      case Nullable(e) => Type.Nullable(VisitType(h, e))
      case ListCursor(e) => Type.ListCursor(VisitType(h, e))
      case Map(k, v) => Type.Map(VisitType(h, k), VisitType(h, v))
      case Pair(a, b) => Type.Pair(VisitType(h, a), VisitType(h, b))
      case Callback(x, ps) => Type.Callback(VisitType(h, x), VisitTypes(h, ps))
      case Tuple(es) => Type.Tuple(VisitTypes(h, es))
      case _ => t;
    assert TypeInside(r, t, mid) by {
      match t
      case List(e) => VisitedType(h, r, e);
      case Set(e) => VisitedType(h, r, e);
      case Nullable(e) => VisitedType(h, r, e);
      case ListCursor(e) => VisitedType(h, r, e);
      case Map(k, v) => VisitedType(h, r, k); VisitedType(h, r, v);
      case Pair(a, b) => VisitedType(h, r, a); VisitedType(h, r, b);
      case Callback(x, ps) => VisitedType(h, r, x); VisitedTypes(h, r, ps);
      case Tuple(es) => VisitedTypes(h, r, es);
      case _ =>
    }
  }

  lemma {:induction false} VisitedTypes(h: Hooks, r: Rule, ts: seq<Type>)
    requires Follows(h, r)
    ensures TypesTo(r, ts, VisitTypes(h, ts))
    decreases ts, 0
  {
    if ts != [] {
      VisitedType(h, r, ts[0]);
      VisitedTypes(h, r, ts[1..]);
      assert VisitTypes(h, ts)[1..] == VisitTypes(h, ts[1..]);
    }
  }

  lemma {:induction false} VisitedExpr(h: Hooks, r: Rule, e: Expr)
    requires Follows(h, r) && r.defaults
    ensures ExprTo(r, e, VisitExpr(h, e))
    decreases e, 2
  {
    if e.RecordConstruct? || e.ConstructorCall? || e.Lambda? || e.Call? {
      VisitedParts(h, r, e);
    } else {
      VisitedInside(h, r, e);
    }
    assert ExprInside(r, e, VisitChildren(h, e)) && r.node(VisitChildren(h, e), h.onExpr(VisitChildren(h, e)));
  }

  lemma {:induction false} VisitedInside(h: Hooks, r: Rule, e: Expr)
    requires Follows(h, r) && r.defaults && !(e.RecordConstruct? || e.ConstructorCall? || e.Lambda? || e.Call?)
    ensures ExprInside(r, e, VisitChildren(h, e))
    decreases e, 1
  {
    match e
    case Ref(_, ty, _) => VisitedType(h, r, ty);
    case This(ty, _) => VisitedType(h, r, ty);
    case Binary(_, x, y, ty, _) => VisitedType(h, r, ty); VisitedExpr(h, r, x); VisitedExpr(h, r, y);
    case Conditional(c, t, f, ty, _) =>
      VisitedType(h, r, ty); VisitedExpr(h, r, c); VisitedExpr(h, r, t); VisitedExpr(h, r, f);
    case Is(x, ty, _) => VisitedType(h, r, ty); VisitedExpr(h, r, x);
    case AssignExpr(t, v, ty, _) => VisitedType(h, r, ty); VisitedExpr(h, r, t); VisitedExpr(h, r, v);
    case FieldAccess(t, _, ty, _) => VisitedType(h, r, ty); VisitedExpr(h, r, t);
    case RecordCopy(t, _, _, _) => VisitedExpr(h, r, t);
    case UnsupportedTyped(_, ty, _) => VisitedType(h, r, ty);
    case _ =>
  }

  lemma {:induction false} VisitedParts(h: Hooks, r: Rule, e: Expr)
    requires Follows(h, r) && r.defaults && (e.RecordConstruct? || e.ConstructorCall? || e.Lambda? || e.Call?)
    ensures ExprInside(r, e, VisitChildren(h, e))
    decreases e, 1
  {
    match e
    case Call(receiver, _, _, _, args, ty, _) =>
      if receiver.Some? { VisitedExpr(h, r, receiver.value); }
      VisitedExprs(h, r, args);
      VisitedType(h, r, ty);
    case RecordConstruct(usr, n, _, args, _) =>
      VisitedExprs(h, r, args);
      assert r.site(usr, Site(n, None), Landed(h, usr, Site(n, None)));
    case ConstructorCall(usr, n, k, args, _) =>
      VisitedExprs(h, r, args);
      assert r.site(usr, Site(n, Some(k)), Landed(h, usr, Site(n, Some(k))));
    case Lambda(params, body, ty, _) =>
      VisitedParams(h, r, params); VisitedStmts(h, r, body); VisitedType(h, r, ty);
  }

  lemma {:induction false} VisitedExprs(h: Hooks, r: Rule, es: seq<Expr>)
    requires Follows(h, r) && r.defaults
    ensures ExprsTo(r, es, VisitExprs(h, es))
    decreases es, 0
  {
    if es != [] {
      VisitedExpr(h, r, es[0]);
      VisitedExprs(h, r, es[1..]);
      assert VisitExprs(h, es)[1..] == VisitExprs(h, es[1..]);
    }
  }

  lemma {:induction false} VisitedParams(h: Hooks, r: Rule, ps: seq<Param>)
    requires Follows(h, r) && r.defaults
    ensures ParamsTo(r, ps, VisitParams(h, ps))
    decreases ps, 0
  {
    if ps != [] {
      VisitedType(h, r, ps[0].ty);
      if ps[0].defaultValue.Some? { VisitedExpr(h, r, ps[0].defaultValue.value); }
      VisitedParams(h, r, ps[1..]);
      assert VisitParams(h, ps)[1..] == VisitParams(h, ps[1..]);
    }
  }

  /** A visited body is the body rewritten by what the hooks do: at every type, site and node of
      every statement, once, children first, and nowhere else. */
  lemma {:induction false} VisitedStmts(h: Hooks, r: Rule, ss: seq<Stmt>)
    requires Follows(h, r) && r.defaults
    ensures StmtsTo(r, ss, VisitStmts(h, ss))
    decreases ss, 0
  {
    if ss != [] {
      VisitedStmt(h, r, ss[0]);
      VisitedStmts(h, r, ss[1..]);
      assert VisitStmts(h, ss)[1..] == VisitStmts(h, ss[1..]);
    }
  }

  lemma {:induction false} VisitedOption(h: Hooks, r: Rule, e: Option<Expr>)
    requires Follows(h, r) && r.defaults
    ensures OptionTo(r, e, if e.Some? then Some(VisitExpr(h, e.value)) else None)
    decreases e, 0
  {
    if e.Some? { VisitedExpr(h, r, e.value); }
  }

  lemma {:induction false} VisitedStmt(h: Hooks, r: Rule, s: Stmt)
    requires Follows(h, r) && r.defaults
    ensures StmtTo(r, s, VisitStmt(h, s))
    decreases s, 1
  {
    if s.If? || s.While? || s.DoWhile? || s.For? || s.ForEach? || s.TryCatch? || s.TryFinally? || s.Switch? {
      VisitedBlocks(h, r, s);
    } else {
      match s
      case Return(e) => VisitedOption(h, r, e);
      case VarDecl(_, ty, e) => VisitedType(h, r, ty); VisitedOption(h, r, e);
      case Assign(_, e) => VisitedExpr(h, r, e);
      case FieldAssign(t, _, e) => VisitedExpr(h, r, t); VisitedExpr(h, r, e);
      case ExprStmt(e) => VisitedExpr(h, r, e);
      case Throw(e) => VisitedExpr(h, r, e);
      case _ =>
    }
  }

  lemma {:induction false} VisitedBlocks(h: Hooks, r: Rule, s: Stmt)
    requires Follows(h, r) && r.defaults
    requires s.If? || s.While? || s.DoWhile? || s.For? || s.ForEach? || s.TryCatch? || s.TryFinally? || s.Switch?
    ensures StmtTo(r, s, VisitStmt(h, s))
    decreases s, 0
  {
    match s
    case If(c, t, f) => VisitedExpr(h, r, c); VisitedStmts(h, r, t); VisitedStmts(h, r, f);
    case While(c, b) => VisitedExpr(h, r, c); VisitedStmts(h, r, b);
    case DoWhile(b, c) => VisitedStmts(h, r, b); VisitedExpr(h, r, c);
    case For(i, c, n, b) =>
      if i.Some? { VisitedStmt(h, r, i.value); }
      VisitedOption(h, r, c);
      if n.Some? { VisitedStmt(h, r, n.value); }
      VisitedStmts(h, r, b);
    case ForEach(_, ty, e, b) => VisitedType(h, r, ty); VisitedExpr(h, r, e); VisitedStmts(h, r, b);
    case TryCatch(t, ty, _, c) => VisitedStmts(h, r, t); VisitedType(h, r, ty); VisitedStmts(h, r, c);
    case TryFinally(t, f) => VisitedStmts(h, r, t); VisitedStmts(h, r, f);
    case Switch(e, cases, _, d) => VisitedExpr(h, r, e); VisitedCases(h, r, cases); VisitedStmts(h, r, d);
  }

  lemma {:induction false} VisitedCases(h: Hooks, r: Rule, cases: seq<SwitchCase>)
    requires Follows(h, r) && r.defaults
    ensures CasesTo(r, cases, VisitCases(h, cases))
    decreases cases, 0
  {
    if cases != [] {
      VisitedExprs(h, r, cases[0].values);
      VisitedStmts(h, r, cases[0].body);
      VisitedCases(h, r, cases[1..]);
      assert VisitCases(h, cases)[1..] == VisitCases(h, cases[1..]);
    }
  }

  /** A rule under which any type may stay as it is. */
  lemma {:induction false} TypeKept(r: Rule, t: Type)
    requires forall u :: r.ty(u, u)
    ensures TypeTo(r, t, t)
    decreases t, 0
  {
    assert TypeInside(r, t, t) by {
      match t
      case List(e) => TypeKept(r, e);
      case Set(e) => TypeKept(r, e);
      case Nullable(e) => TypeKept(r, e);
      case ListCursor(e) => TypeKept(r, e);
      case Map(k, v) => TypeKept(r, k); TypeKept(r, v);
      case Pair(a, b) => TypeKept(r, a); TypeKept(r, b);
      case Callback(x, ps) => TypeKept(r, x); TypesKept(r, ps);
      case Tuple(es) => TypesKept(r, es);
      case _ =>
    }
  }

  lemma {:induction false} TypesKept(r: Rule, ts: seq<Type>)
    requires forall u :: r.ty(u, u)
    ensures TypesTo(r, ts, ts)
    decreases ts, 0
  {
    if ts != [] { TypeKept(r, ts[0]); TypesKept(r, ts[1..]); }
  }

  // ----- and the only one -----

  /** The rule leaves no choice. */
  ghost predicate Decides(r: Rule) {
    && (forall t, u, v | r.ty(t, u) && r.ty(t, v) :: u == v)
    && (forall usr, s, y, z | r.site(usr, s, y) && r.site(usr, s, z) :: y == z)
    && (forall e, x, y | r.node(e, x) && r.node(e, y) :: x == y)
  }

  lemma {:induction false} OneType(r: Rule, t: Type, a: Type, b: Type)
    requires Decides(r) && TypeTo(r, t, a) && TypeTo(r, t, b)
    ensures a == b
    decreases t, 1
  {
    var x :| TypeInside(r, t, x) && r.ty(x, a);
    var y :| TypeInside(r, t, y) && r.ty(y, b);
    OneTypeInside(r, t, x, y);
  }

  lemma {:induction false} OneTypeInside(r: Rule, t: Type, x: Type, y: Type)
    requires Decides(r) && TypeInside(r, t, x) && TypeInside(r, t, y)
    ensures x == y
    decreases t, 0
  {
    match t
    case List(e) => OneType(r, e, x.element, y.element);
    case Set(e) => OneType(r, e, x.element, y.element);
    case Nullable(e) => OneType(r, e, x.element, y.element);
    case ListCursor(e) => OneType(r, e, x.element, y.element);
    case Map(k, v) => OneType(r, k, x.key, y.key); OneType(r, v, x.value, y.value);
    case Pair(f, g) => OneType(r, f, x.first, y.first); OneType(r, g, x.second, y.second);
    case Callback(f, ps) => OneType(r, f, x.result, y.result); OneTypes(r, ps, x.parameters, y.parameters);
    case Tuple(es) => OneTypes(r, es, x.elements, y.elements);
    case _ =>
  }

  lemma {:induction false} OneTypes(r: Rule, ts: seq<Type>, a: seq<Type>, b: seq<Type>)
    requires Decides(r) && TypesTo(r, ts, a) && TypesTo(r, ts, b)
    ensures a == b
    decreases ts, 0
  {
    if ts != [] {
      OneType(r, ts[0], a[0], b[0]);
      OneTypes(r, ts[1..], a[1..], b[1..]);
      assert a == [a[0]] + a[1..] && b == [b[0]] + b[1..];
    }
  }

  lemma {:induction false} OneExpr(r: Rule, e: Expr, a: Expr, b: Expr)
    requires Decides(r) && ExprTo(r, e, a) && ExprTo(r, e, b)
    ensures a == b
    decreases e, 2
  {
    var x :| ExprInside(r, e, x) && r.node(x, a);
    var y :| ExprInside(r, e, y) && r.node(y, b);
    if e.RecordConstruct? || e.ConstructorCall? || e.Lambda? || e.Call? {
      OneOfParts(r, e, x, y);
    } else {
      OneInside(r, e, x, y);
    }
  }

  lemma {:induction false} OneInside(r: Rule, e: Expr, x: Expr, y: Expr)
    requires Decides(r) && !(e.RecordConstruct? || e.ConstructorCall? || e.Lambda? || e.Call?)
    requires ExprInside(r, e, x) && ExprInside(r, e, y)
    ensures x == y
    decreases e, 1
  {
    match e
    case Ref(_, ty, _) => OneType(r, ty, x.ty, y.ty);
    case This(ty, _) => OneType(r, ty, x.ty, y.ty);
    case Binary(_, c, d, ty, _) =>
      OneType(r, ty, x.ty, y.ty); OneExpr(r, c, x.lhs, y.lhs); OneExpr(r, d, x.rhs, y.rhs);
    case Conditional(c, t, f, ty, _) =>
      OneType(r, ty, x.ty, y.ty); OneExpr(r, c, x.condition, y.condition);
      OneExpr(r, t, x.thenExpr, y.thenExpr); OneExpr(r, f, x.elseExpr, y.elseExpr);
    case Is(c, ty, _) => OneType(r, ty, x.targetType, y.targetType); OneExpr(r, c, x.operand, y.operand);
    case AssignExpr(t, v, ty, _) =>
      OneType(r, ty, x.ty, y.ty); OneExpr(r, t, x.target, y.target); OneExpr(r, v, x.rvalue, y.rvalue);
    case FieldAccess(t, _, ty, _) => OneType(r, ty, x.ty, y.ty); OneExpr(r, t, x.target, y.target);
    case RecordCopy(t, _, _, _) => OneExpr(r, t, x.target, y.target);
    case UnsupportedTyped(_, ty, _) => OneType(r, ty, x.ty, y.ty);
    case _ =>
  }

  lemma {:induction false} OneOfParts(r: Rule, e: Expr, x: Expr, y: Expr)
    requires Decides(r) && (e.RecordConstruct? || e.ConstructorCall? || e.Lambda? || e.Call?)
    requires ExprInside(r, e, x) && ExprInside(r, e, y)
    ensures x == y
    decreases e, 1
  {
    match e
    case Call(receiver, _, _, _, args, ty, _) =>
      if receiver.Some? { OneExpr(r, receiver.value, x.receiver.value, y.receiver.value); }
      OneOfExprs(r, args, x.args, y.args);
      OneType(r, ty, x.ty, y.ty);
    case RecordConstruct(_, _, _, args, _) => OneOfExprs(r, args, x.args, y.args);
    case ConstructorCall(_, _, _, args, _) => OneOfExprs(r, args, x.args, y.args);
    case Lambda(params, body, ty, _) =>
      if r.defaults { OneOfParams(r, params, x.params, y.params); }
      OneOfStmts(r, body, x.body, y.body);
      OneType(r, ty, x.ty, y.ty);
  }

  lemma {:induction false} OneOfExprs(r: Rule, es: seq<Expr>, a: seq<Expr>, b: seq<Expr>)
    requires Decides(r) && ExprsTo(r, es, a) && ExprsTo(r, es, b)
    ensures a == b
    decreases es, 0
  {
    if es != [] {
      OneExpr(r, es[0], a[0], b[0]);
      OneOfExprs(r, es[1..], a[1..], b[1..]);
      assert a == [a[0]] + a[1..] && b == [b[0]] + b[1..];
    }
  }

  lemma {:induction false} OneOption(r: Rule, e: Option<Expr>, a: Option<Expr>, b: Option<Expr>)
    requires Decides(r) && OptionTo(r, e, a) && OptionTo(r, e, b)
    ensures a == b
    decreases e, 0
  {
    if e.Some? { OneExpr(r, e.value, a.value, b.value); }
  }

  lemma {:induction false} OneOfParams(r: Rule, ps: seq<Param>, a: seq<Param>, b: seq<Param>)
    requires Decides(r) && ParamsTo(r, ps, a) && ParamsTo(r, ps, b)
    ensures a == b
    decreases ps, 0
  {
    if ps != [] {
      OneType(r, ps[0].ty, a[0].ty, b[0].ty);
      OneOption(r, ps[0].defaultValue, a[0].defaultValue, b[0].defaultValue);
      OneOfParams(r, ps[1..], a[1..], b[1..]);
      assert a == [a[0]] + a[1..] && b == [b[0]] + b[1..];
    }
  }

  /** Under a rule that leaves no choice a body has one rewriting only. */
  lemma {:induction false} OneOfStmts(r: Rule, ss: seq<Stmt>, a: seq<Stmt>, b: seq<Stmt>)
    requires Decides(r) && StmtsTo(r, ss, a) && StmtsTo(r, ss, b)
    ensures a == b
    decreases ss, 0
  {
    if ss != [] {
      OneStmt(r, ss[0], a[0], b[0]);
      OneOfStmts(r, ss[1..], a[1..], b[1..]);
      assert a == [a[0]] + a[1..] && b == [b[0]] + b[1..];
    }
  }

  lemma {:induction false} OneStmt(r: Rule, s: Stmt, a: Stmt, b: Stmt)
    requires Decides(r) && StmtTo(r, s, a) && StmtTo(r, s, b)
    ensures a == b
    decreases s, 1
  {
    if s.If? || s.While? || s.DoWhile? || s.For? || s.ForEach? || s.TryCatch? || s.TryFinally? || s.Switch? {
      OneBlock(r, s, a, b);
    } else {
      match s
      case Return(e) => OneOption(r, e, a.result, b.result);
      case VarDecl(_, ty, e) => OneType(r, ty, a.ty, b.ty); OneOption(r, e, a.init, b.init);
      case Assign(_, e) => OneExpr(r, e, a.value, b.value);
      case FieldAssign(t, _, e) => OneExpr(r, t, a.target, b.target); OneExpr(r, e, a.value, b.value);
      case ExprStmt(e) => OneExpr(r, e, a.expr, b.expr);
      case Throw(e) => OneExpr(r, e, a.value, b.value);
      case _ =>
    }
  }

  lemma {:induction false} OneBlock(r: Rule, s: Stmt, a: Stmt, b: Stmt)
    requires Decides(r) && StmtTo(r, s, a) && StmtTo(r, s, b)
    requires s.If? || s.While? || s.DoWhile? || s.For? || s.ForEach? || s.TryCatch? || s.TryFinally? || s.Switch?
    ensures a == b
    decreases s, 0
  {
    match s
    case If(c, t, f) =>
      OneExpr(r, c, a.condition, b.condition);
      OneOfStmts(r, t, a.thenBranch, b.thenBranch); OneOfStmts(r, f, a.elseBranch, b.elseBranch);
    case While(c, w) => OneExpr(r, c, a.condition, b.condition); OneOfStmts(r, w, a.body, b.body);
    case DoWhile(w, c) => OneOfStmts(r, w, a.body, b.body); OneExpr(r, c, a.condition, b.condition);
    case For(i, c, n, w) =>
      if i.Some? { OneStmt(r, i.value, a.start.value, b.start.value); }
      OneOption(r, c, a.test, b.test);
      if n.Some? { OneStmt(r, n.value, a.increment.value, b.increment.value); }
      OneOfStmts(r, w, a.body, b.body);
    case ForEach(_, ty, e, w) =>
      OneType(r, ty, a.ty, b.ty); OneExpr(r, e, a.iterable, b.iterable); OneOfStmts(r, w, a.body, b.body);
    case TryCatch(t, ty, _, c) =>
      OneOfStmts(r, t, a.tryBody, b.tryBody); OneType(r, ty, a.catchType, b.catchType);
      OneOfStmts(r, c, a.catchBody, b.catchBody);
    case TryFinally(t, f) => OneOfStmts(r, t, a.tryBody, b.tryBody); OneOfStmts(r, f, a.finallyBody, b.finallyBody);
    case Switch(e, cases, _, d) =>
      OneExpr(r, e, a.scrutinee, b.scrutinee); OneOfCases(r, cases, a.cases, b.cases);
      OneOfStmts(r, d, a.default, b.default);
  }

  lemma {:induction false} OneOfCases(r: Rule, cases: seq<SwitchCase>, a: seq<SwitchCase>, b: seq<SwitchCase>)
    requires Decides(r) && CasesTo(r, cases, a) && CasesTo(r, cases, b)
    ensures a == b
    decreases cases, 0
  {
    if cases != [] {
      OneOfExprs(r, cases[0].values, a[0].values, b[0].values);
      OneOfStmts(r, cases[0].body, a[0].body, b[0].body);
      OneOfCases(r, cases[1..], a[1..], b[1..]);
      assert a == [a[0]] + a[1..] && b == [b[0]] + b[1..];
    }
  }
}
