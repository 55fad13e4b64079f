/**
 The one traversal the rewriting passes share: it offers every type (composite
 parts first), every construction site's class name and constructor index, and
 every expression once its children have been rewritten.  A record copy is not
 a construction site.
 */
module Visitor {
  import opened Wrappers
  import opened Ir

  datatype Site = Site(name: string, index: Option<nat>)

  datatype Hooks = Hooks(onType: Type -> Type, onConstruct: (string, Site) -> Site, onExpr: Expr -> Expr)

  function SameType(t: Type): Type { t }
  function SameSite(usr: string, s: Site): Site { s }
  function SameExpr(e: Expr): Expr { e }

  function VisitType(h: Hooks, t: Type): Type
    decreases t, 0
  {
    var t' := match t
      case List(e) => Type.List(VisitType(h, e))
      case Set(e) => Type.Set(VisitType(h, e))
      case Nullable(e) => Type.Nullable(VisitType(h, e))
      case ListCursor(e) => Type.ListCursor(VisitType(h, e))
      case Map(k, v) => Type.Map(VisitType(h, k), VisitType(h, v))
      case Pair(a, b) => Type.Pair(VisitType(h, a), VisitType(h, b))
      case Callback(r, ps) => Type.Callback(VisitType(h, r), VisitTypes(h, ps))
      case Tuple(es) => Type.Tuple(VisitTypes(h, es))
      case _ => t;
    h.onType(t')
  }

  function VisitTypes(h: Hooks, ts: seq<Type>): seq<Type>
    decreases ts, 0
  {
    if ts == [] then [] else [VisitType(h, ts[0])] + VisitTypes(h, ts[1..])
  }

  function VisitExpr(h: Hooks, e: Expr): Expr
    decreases e, 1
  {
    h.onExpr(VisitChildren(h, e))
  }

  function VisitChildren(h: Hooks, e: Expr): Expr
    decreases e, 0
  {
    match e
    case IntLiteral(_, _) => e
    case BoolLiteral(_, _) => e
    case StringLiteral(_, _) => e
    case NullLiteral(_) => e
    case Ref(n, ty, o) => Ref(n, VisitType(h, ty), o)
    case This(ty, o) => This(VisitType(h, ty), o)
    case Binary(op, l, r, ty, o) => Binary(op, VisitExpr(h, l), VisitExpr(h, r), VisitType(h, ty), o)
    case Conditional(c, t, f, ty, o) =>
      Conditional(VisitExpr(h, c), VisitExpr(h, t), VisitExpr(h, f), VisitType(h, ty), o)
    case Is(x, ty, o) => Is(VisitExpr(h, x), VisitType(h, ty), o)
    case AssignExpr(t, v, ty, o) => AssignExpr(VisitExpr(h, t), VisitExpr(h, v), VisitType(h, ty), o)
    case FieldAccess(t, field, ty, o) => FieldAccess(VisitExpr(h, t), field, VisitType(h, ty), o)
    case Call(receiver, base, usr, name, args, ty, o) =>
      Call(if receiver.Some? then Some(VisitExpr(h, receiver.value)) else None, base, usr, name,
           VisitExprs(h, args), VisitType(h, ty), o)
    case RecordConstruct(usr, name, names, args, o) =>
      RecordConstruct(usr, h.onConstruct(usr, Site(name, None)).name, names, VisitExprs(h, args), o)
    case RecordCopy(t, usr, name, o) => RecordCopy(VisitExpr(h, t), usr, name, o)
    case ConstructorCall(usr, name, index, args, o) =>
      var site := h.onConstruct(usr, Site(name, Some(index)));
      ConstructorCall(usr, site.name, if site.index.Some? then site.index.value else index, VisitExprs(h, args), o)
    case Lambda(params, body, ty, o) => Lambda(VisitParams(h, params), VisitStmts(h, body), VisitType(h, ty), o)
    case UnsupportedTyped(reason, ty, o) => UnsupportedTyped(reason, VisitType(h, ty), o)
  }

  function VisitExprs(h: Hooks, es: seq<Expr>): (r: seq<Expr>)
    ensures |r| == |es|
    decreases es, 0
  {
    if es == [] then [] else [VisitExpr(h, es[0])] + VisitExprs(h, es[1..])
  }

  function VisitParams(h: Hooks, params: seq<Param>): seq<Param>
    decreases params, 0
  {
    if params == [] then []
    else
      var p := params[0];
      [Param(p.name, VisitType(h, p.ty),
             if p.defaultValue.Some? then Some(VisitExpr(h, p.defaultValue.value)) else None)]
      + VisitParams(h, params[1..])
  }

  function VisitStmts(h: Hooks, ss: seq<Stmt>): seq<Stmt>
    decreases ss, 0
  {
    if ss == [] then [] else [VisitStmt(h, ss[0])] + VisitStmts(h, ss[1..])
  }

  function VisitStmt(h: Hooks, s: Stmt): Stmt
    decreases s, 0
  {
    match s
    case Return(e) => Return(if e.Some? then Some(VisitExpr(h, e.value)) else None)
    case VarDecl(n, ty, e) => VarDecl(n, VisitType(h, ty), if e.Some? then Some(VisitExpr(h, e.value)) else None)
    case Assign(n, e) => Assign(n, VisitExpr(h, e))
    case FieldAssign(t, field, e) => FieldAssign(VisitExpr(h, t), field, VisitExpr(h, e))
    case If(c, t, f) => If(VisitExpr(h, c), VisitStmts(h, t), VisitStmts(h, f))
    case While(c, b) => While(VisitExpr(h, c), VisitStmts(h, b))
    case DoWhile(b, c) => DoWhile(VisitStmts(h, b), VisitExpr(h, c))
    case For(i, c, n, b) =>
      For(if i.Some? then Some(VisitStmt(h, i.value)) else None,
          if c.Some? then Some(VisitExpr(h, c.value)) else None,
          if n.Some? then Some(VisitStmt(h, n.value)) else None, VisitStmts(h, b))
    case ForEach(n, ty, e, b) => ForEach(n, VisitType(h, ty), VisitExpr(h, e), VisitStmts(h, b))
    case ExprStmt(e) => ExprStmt(VisitExpr(h, e))
    case Throw(e) => Throw(VisitExpr(h, e))
    case TryCatch(t, ty, n, c) => TryCatch(VisitStmts(h, t), VisitType(h, ty), n, VisitStmts(h, c))
    case TryFinally(t, f) => TryFinally(VisitStmts(h, t), VisitStmts(h, f))
    case Switch(e, cases, hasDefault, d) => Switch(VisitExpr(h, e), VisitCases(h, cases), hasDefault, VisitStmts(h, d))
    case Break => s
    case Continue => s
    case ContinueLabel(_) => s
    case UnsupportedStmt(_) => s
  }

  function VisitCases(h: Hooks, cases: seq<SwitchCase>): seq<SwitchCase>
    decreases cases, 0
  {
    if cases == [] then []
    else
      var c := cases[0];
      [SwitchCase(VisitExprs(h, c.values), VisitStmts(h, c.body), c.tag)] + VisitCases(h, cases[1..])
  }
}
