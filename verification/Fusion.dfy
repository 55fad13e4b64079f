/**
 Traversals that only respell: they change record types and construction sites
 in place.  Two such traversals in a row are one.
 */
module Fusion {
  import opened Wrappers
  import opened Ir
  import opened Visitor

  /** A type changes only at record types, which stay record types; a node changes only where
      it is a record copy, and there only the class name. */
  ghost predicate Respells(h: Hooks) {
    && (forall t: Type :: if t.Record? then h.onType(t).Record? else h.onType(t) == t)
    && (forall e: Expr | !e.RecordCopy? :: h.onExpr(e) == e)
    && (forall t, u, n, o :: h.onExpr(RecordCopy(t, u, n, o)) == RecordCopy(t, u, Copied(h, u, n), o))
  }

  /** What the class name of a record copy becomes. */
  function Copied(h: Hooks, u: string, n: string): string {
    var somewhere := Origin("", 0, 0);
    var e := h.onExpr(RecordCopy(NullLiteral(somewhere), u, n, somewhere));
    if e.RecordCopy? then e.typeName else n
  }

  ghost predicate TypesComposed(f: Hooks, g: Hooks, h: Hooks) {
    && Respells(f) && Respells(g) && Respells(h)
    && (forall t :: h.onType(t) == g.onType(f.onType(t)))
  }

  ghost predicate SitesComposed(f: Hooks, g: Hooks, h: Hooks) {
    && (forall u, n :: Copied(h, u, n) == Copied(g, u, Copied(f, u, n)))
    && (forall u, n :: Named(h, u, n) == Named(g, u, Named(f, u, n)))
    && (forall u, n, i :: Indexed(h, u, n, i) == Indexed(g, u, Indexed(f, u, n, i).0, Indexed(f, u, n, i).1))
  }

  /** `h` does at each place what `f` and then `g` do. */
  ghost predicate Composed(f: Hooks, g: Hooks, h: Hooks) {
    TypesComposed(f, g, h) && SitesComposed(f, g, h)
  }

  /** What an aggregate's class name becomes. */
  function Named(h: Hooks, u: string, n: string): string {
    h.onConstruct(u, Site(n, None)).name
  }

  /** What a constructor call's class name and index become. */
  function Indexed(h: Hooks, u: string, n: string, i: nat): (string, nat) {
    var site := h.onConstruct(u, Site(n, Some(i)));
    (site.name, if site.index.Some? then site.index.value else i)
  }

  lemma {:induction false} FuseType(f: Hooks, g: Hooks, h: Hooks, t: Type)
    requires TypesComposed(f, g, h)
    ensures VisitType(g, VisitType(f, t)) == VisitType(h, t)
    decreases t, 1
  {
    if t.List? || t.Set? || t.Nullable? || t.ListCursor? {
      FuseType(f, g, h, t.element);
    } else if t.Map? || t.Pair? {
      FusePairs(f, g, h, t);
    } else if t.Callback? || t.Tuple? {
      FuseComposite(f, g, h, t);
    } else {
      assert VisitType(f, t) == f.onType(t) && VisitType(h, t) == h.onType(t);
    }
  }

  lemma {:induction false} FusePairs(f: Hooks, g: Hooks, h: Hooks, t: Type)
    requires TypesComposed(f, g, h) && (t.Map? || t.Pair?)
    ensures VisitType(g, VisitType(f, t)) == VisitType(h, t)
    decreases t, 0
  {
    match t
    case Map(k, v) =>
      FuseType(f, g, h, k); FuseType(f, g, h, v);
      assert VisitType(f, t) == Type.Map(VisitType(f, k), VisitType(f, v));
    case Pair(a, b) =>
      FuseType(f, g, h, a); FuseType(f, g, h, b);
      assert VisitType(f, t) == Type.Pair(VisitType(f, a), VisitType(f, b));
  }

  lemma {:induction false} FuseComposite(f: Hooks, g: Hooks, h: Hooks, t: Type)
    requires TypesComposed(f, g, h) && (t.Callback? || t.Tuple?)
    ensures VisitType(g, VisitType(f, t)) == VisitType(h, t)
    decreases t, 0
  {
    match t
    case Callback(r, ps) =>
      FuseType(f, g, h, r); FuseTypes(f, g, h, ps);
      assert VisitType(f, t) == Type.Callback(VisitType(f, r), VisitTypes(f, ps));
    case Tuple(es) =>
      FuseTypes(f, g, h, es);
      assert VisitType(f, t) == Type.Tuple(VisitTypes(f, es));
  }

  lemma {:induction false} FuseTypes(f: Hooks, g: Hooks, h: Hooks, ts: seq<Type>)
    requires TypesComposed(f, g, h)
    ensures VisitTypes(g, VisitTypes(f, ts)) == VisitTypes(h, ts)
    decreases ts, 0
  {
    if ts != [] {
      FuseType(f, g, h, ts[0]); FuseTypes(f, g, h, ts[1..]);
      assert VisitTypes(f, ts)[1..] == VisitTypes(f, ts[1..]);
    }
  }

  lemma {:induction false} FuseE(f: Hooks, g: Hooks, h: Hooks, e: Expr)
    requires Composed(f, g, h)
    ensures VisitExpr(g, VisitExpr(f, e)) == VisitExpr(h, e)
    decreases e, 3
  {
    if e.Lambda? || e.Call? {
      FuseLarge(f, g, h, e);
    } else if e.Conditional? || e.Binary? {
      FuseOperator(f, g, h, e);
    } else if e.RecordConstruct? || e.ConstructorCall? {
      FuseSite(f, g, h, e);
    } else if e.RecordCopy? {
      FuseE(f, g, h, e.target);
      FuseCopy(f, g, h, e);
    } else {
      FuseSmall(f, g, h, e);
    }
  }

  lemma {:induction false} FuseSite(f: Hooks, g: Hooks, h: Hooks, e: Expr)
    requires Composed(f, g, h) && (e.RecordConstruct? || e.ConstructorCall?)
    ensures VisitChildren(g, VisitChildren(f, e)) == VisitChildren(h, e)
    decreases e, 1
  {
    FuseEs(f, g, h, e.args);
    if e.RecordConstruct? {
      assert VisitChildren(f, e) == RecordConstruct(e.typeUsr, Named(f, e.typeUsr, e.typeName), e.fieldNames,
                                                    VisitExprs(f, e.args), e.origin);
      assert Named(h, e.typeUsr, e.typeName) == Named(g, e.typeUsr, Named(f, e.typeUsr, e.typeName));
    } else {
      var u, n, i := e.typeUsr, e.typeName, e.constructorIndex;
      assert VisitChildren(f, e) == ConstructorCall(u, Indexed(f, u, n, i).0, Indexed(f, u, n, i).1,
                                                    VisitExprs(f, e.args), e.origin);
      assert Indexed(h, u, n, i) == Indexed(g, u, Indexed(f, u, n, i).0, Indexed(f, u, n, i).1);
    }
  }

  lemma CopyOnce(f: Hooks, e: Expr)
    requires Respells(f) && e.RecordCopy?
    ensures VisitExpr(f, e)
         == RecordCopy(VisitExpr(f, e.target), e.typeUsr, Copied(f, e.typeUsr, e.typeName), e.origin)
  {
    assert VisitChildren(f, e) == RecordCopy(VisitExpr(f, e.target), e.typeUsr, e.typeName, e.origin);
  }

  lemma FuseCopy(f: Hooks, g: Hooks, h: Hooks, e: Expr)
    requires Composed(f, g, h) && e.RecordCopy? && VisitExpr(g, VisitExpr(f, e.target)) == VisitExpr(h, e.target)
    ensures VisitExpr(g, VisitExpr(f, e)) == VisitExpr(h, e)
  {
    CopyOnce(f, e);
    CopyOnce(g, VisitExpr(f, e));
    CopyOnce(h, e);
    assert Copied(h, e.typeUsr, e.typeName) == Copied(g, e.typeUsr, Copied(f, e.typeUsr, e.typeName));
  }

  lemma {:induction false} FuseSmall(f: Hooks, g: Hooks, h: Hooks, e: Expr)
    requires Composed(f, g, h) && !(e.Lambda? || e.Call? || e.Conditional? || e.Binary? || e.RecordConstruct?
                                    || e.ConstructorCall? || e.RecordCopy?)
    ensures VisitExpr(g, VisitExpr(f, e)) == VisitExpr(h, e)
    decreases e, 1
  {
    if e.Is? || e.AssignExpr? || e.FieldAccess? {
      FuseParts(f, g, h, e);
    } else {
      match e
      case Ref(_, ty, _) => FuseType(f, g, h, ty);
      case This(ty, _) => FuseType(f, g, h, ty);
      case UnsupportedTyped(_, ty, _) => FuseType(f, g, h, ty);
      case _ =>
    }
  }

  lemma {:induction false} FuseParts(f: Hooks, g: Hooks, h: Hooks, e: Expr)
    requires Composed(f, g, h) && (e.Is? || e.AssignExpr? || e.FieldAccess?)
    ensures VisitExpr(g, VisitExpr(f, e)) == VisitExpr(h, e)
    decreases e, 0
  {
    NodeKept(f, e);
    NodeKept(h, e);
    if e.AssignExpr? {
      FuseE(f, g, h, e.target); FuseE(f, g, h, e.rvalue); FuseType(f, g, h, e.ty);
    } else if e.Is? {
      FuseE(f, g, h, e.operand); FuseType(f, g, h, e.targetType);
    } else {
      FuseE(f, g, h, e.target); FuseType(f, g, h, e.ty);
    }
    NodeKept(g, VisitExpr(f, e));
  }

  lemma NodeKept(h: Hooks, e: Expr)
    requires Respells(h) && (e.Is? || e.AssignExpr? || e.FieldAccess?)
    ensures e.Is? ==> VisitExpr(h, e) == Is(VisitExpr(h, e.operand), VisitType(h, e.targetType), e.origin)
    ensures e.AssignExpr? ==>
              VisitExpr(h, e) == AssignExpr(VisitExpr(h, e.target), VisitExpr(h, e.rvalue), VisitType(h, e.ty),
                                            e.origin)
    ensures e.FieldAccess? ==>
              VisitExpr(h, e) == FieldAccess(VisitExpr(h, e.target), e.field, VisitType(h, e.ty), e.origin)
  {
  }

  lemma {:induction false} FuseOperator(f: Hooks, g: Hooks, h: Hooks, e: Expr)
    requires Composed(f, g, h) && (e.Conditional? || e.Binary?)
    ensures VisitChildren(g, VisitChildren(f, e)) == VisitChildren(h, e)
    decreases e, 1
  {
    FuseType(f, g, h, e.ty);
    if e.Binary? {
      FuseE(f, g, h, e.lhs); FuseE(f, g, h, e.rhs);
      assert VisitChildren(f, e) == Binary(e.op, VisitExpr(f, e.lhs), VisitExpr(f, e.rhs), VisitType(f, e.ty),
                                           e.origin);
    } else {
      FuseE(f, g, h, e.condition); FuseE(f, g, h, e.thenExpr); FuseE(f, g, h, e.elseExpr);
    }
  }

  lemma {:induction false} FuseLarge(f: Hooks, g: Hooks, h: Hooks, e: Expr)
    requires Composed(f, g, h) && (e.Lambda? || e.Call?)
    ensures VisitChildren(g, VisitChildren(f, e)) == VisitChildren(h, e)
    decreases e, 2
  {
    FuseType(f, g, h, e.ty);
    if e.Call? {
      FuseCall(f, g, h, e);
    } else {
      FuseParams(f, g, h, e.params);
      FuseSs(f, g, h, e.body);
    }
  }

  lemma {:induction false} FuseCall(f: Hooks, g: Hooks, h: Hooks, e: Expr)
    requires Composed(f, g, h) && e.Call? && VisitType(g, VisitType(f, e.ty)) == VisitType(h, e.ty)
    ensures VisitChildren(g, VisitChildren(f, e)) == VisitChildren(h, e)
    decreases e, 1
  {
    if e.receiver.Some? { FuseE(f, g, h, e.receiver.value); }
    FuseEs(f, g, h, e.args);
  }

  lemma {:induction false} FuseEs(f: Hooks, g: Hooks, h: Hooks, es: seq<Expr>)
    requires Composed(f, g, h)
    ensures VisitExprs(g, VisitExprs(f, es)) == VisitExprs(h, es)
    decreases es, 0
  {
    if es != [] {
      FuseE(f, g, h, es[0]); FuseEs(f, g, h, es[1..]);
      assert VisitExprs(f, es)[1..] == VisitExprs(f, es[1..]);
    }
  }

  lemma {:induction false} FuseParams(f: Hooks, g: Hooks, h: Hooks, params: seq<Param>)
    requires Composed(f, g, h)
    ensures VisitParams(g, VisitParams(f, params)) == VisitParams(h, params)
    decreases params, 0
  {
    if params != [] {
      FuseType(f, g, h, params[0].ty);
      if params[0].defaultValue.Some? { FuseE(f, g, h, params[0].defaultValue.value); }
      FuseParams(f, g, h, params[1..]);
      assert VisitParams(f, params)[1..] == VisitParams(f, params[1..]);
    }
  }

  /** Two respelling traversals of a body are one. */
  lemma {:induction false} FuseSs(f: Hooks, g: Hooks, h: Hooks, ss: seq<Stmt>)
    requires Composed(f, g, h)
    ensures VisitStmts(g, VisitStmts(f, ss)) == VisitStmts(h, ss)
    decreases ss, 0
  {
    if ss != [] {
      FuseS(f, g, h, ss[0]); FuseSs(f, g, h, ss[1..]);
      assert VisitStmts(f, ss)[1..] == VisitStmts(f, ss[1..]);
    }
  }

  lemma {:induction false} FuseS(f: Hooks, g: Hooks, h: Hooks, s: Stmt)
    requires Composed(f, g, h)
    ensures VisitStmt(g, VisitStmt(f, s)) == VisitStmt(h, s)
    decreases s, 3
  {
    if s.For? || s.Switch? || s.TryCatch? || s.ForEach? {
      FuseLargeS(f, g, h, s);
    } else if s.If? || s.While? || s.DoWhile? || s.TryFinally? {
      FuseNestedS(f, g, h, s);
    } else {
      FuseSmallS(f, g, h, s);
    }
  }

  lemma {:induction false} FuseNestedS(f: Hooks, g: Hooks, h: Hooks, s: Stmt)
    requires Composed(f, g, h) && (s.If? || s.While? || s.DoWhile? || s.TryFinally?)
    ensures VisitStmt(g, VisitStmt(f, s)) == VisitStmt(h, s)
    decreases s, 1
  {
    match s
    case If(c, t, x) => FuseE(f, g, h, c); FuseSs(f, g, h, t); FuseSs(f, g, h, x);
    case While(c, b) => FuseE(f, g, h, c); FuseSs(f, g, h, b);
    case DoWhile(b, c) => FuseSs(f, g, h, b); FuseE(f, g, h, c);
    case TryFinally(t, x) => FuseSs(f, g, h, t); FuseSs(f, g, h, x);
  }

  lemma {:induction false} FuseSmallS(f: Hooks, g: Hooks, h: Hooks, s: Stmt)
    requires Composed(f, g, h) && !(s.For? || s.Switch? || s.TryCatch? || s.ForEach? || s.If? || s.While? || s.DoWhile?
                                    || s.TryFinally?)
    ensures VisitStmt(g, VisitStmt(f, s)) == VisitStmt(h, s)
    decreases s, 1
  {
    match s
    case Return(e) => if e.Some? { FuseE(f, g, h, e.value); }
    case VarDecl(_, ty, e) => FuseType(f, g, h, ty); if e.Some? { FuseE(f, g, h, e.value); }
    case Assign(_, e) => FuseE(f, g, h, e);
    case FieldAssign(t, _, e) => FuseE(f, g, h, t); FuseE(f, g, h, e);
    case ExprStmt(e) => FuseE(f, g, h, e);
    case Throw(e) => FuseE(f, g, h, e);
    case _ =>
  }

  lemma {:induction false} FuseLargeS(f: Hooks, g: Hooks, h: Hooks, s: Stmt)
    requires Composed(f, g, h) && (s.For? || s.Switch? || s.TryCatch? || s.ForEach?)
    ensures VisitStmt(g, VisitStmt(f, s)) == VisitStmt(h, s)
    decreases s, 2
  {
    if s.For? {
      FuseFor(f, g, h, s);
    } else if s.Switch? {
      FuseSwitch(f, g, h, s);
    } else {
      FuseBinder(f, g, h, s);
    }
  }

  lemma {:induction false} FuseSwitch(f: Hooks, g: Hooks, h: Hooks, s: Stmt)
    requires Composed(f, g, h) && s.Switch?
    ensures VisitStmt(g, VisitStmt(f, s)) == VisitStmt(h, s)
    decreases s, 1
  {
    var Switch(e, cases, d, b) := s;
    FuseE(f, g, h, e); FuseCases(f, g, h, cases); FuseSs(f, g, h, b);
    assert VisitStmt(f, s) == Switch(VisitExpr(f, e), VisitCases(f, cases), d, VisitStmts(f, b));
  }

  /** The statements that bind a name for a block. */
  lemma {:induction false} FuseBinder(f: Hooks, g: Hooks, h: Hooks, s: Stmt)
    requires Composed(f, g, h) && (s.TryCatch? || s.ForEach?)
    ensures VisitStmt(g, VisitStmt(f, s)) == VisitStmt(h, s)
    decreases s, 1
  {
    match s
    case ForEach(n, ty, e, b) =>
      FuseType(f, g, h, ty); FuseE(f, g, h, e); FuseSs(f, g, h, b);
      assert VisitStmt(f, s) == ForEach(n, VisitType(f, ty), VisitExpr(f, e), VisitStmts(f, b));
    case TryCatch(t, ty, n, c) =>
      FuseSs(f, g, h, t); FuseType(f, g, h, ty); FuseSs(f, g, h, c);
      assert VisitStmt(f, s) == TryCatch(VisitStmts(f, t), VisitType(f, ty), n, VisitStmts(f, c));
  }

  lemma {:induction false} FuseFor(f: Hooks, g: Hooks, h: Hooks, s: Stmt)
    requires Composed(f, g, h) && s.For?
    ensures VisitStmt(g, VisitStmt(f, s)) == VisitStmt(h, s)
    decreases s, 0
  {
    if s.start.Some? { FuseS(f, g, h, s.start.value); }
    if s.test.Some? { FuseE(f, g, h, s.test.value); }
    if s.increment.Some? { FuseS(f, g, h, s.increment.value); }
    FuseSs(f, g, h, s.body);
  }

  lemma {:induction false} FuseCases(f: Hooks, g: Hooks, h: Hooks, cases: seq<SwitchCase>)
    requires Composed(f, g, h)
    ensures VisitCases(g, VisitCases(f, cases)) == VisitCases(h, cases)
    decreases cases, 0
  {
    if cases != [] {
      FuseEs(f, g, h, cases[0].values); FuseSs(f, g, h, cases[0].body); FuseCases(f, g, h, cases[1..]);
      assert VisitCases(f, cases)[1..] == VisitCases(f, cases[1..]);
    }
  }
}
