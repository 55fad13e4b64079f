/**
 Properties of every expression node and every written type in a body, and when
 a traversal establishes them.
 */
module Everywhere {
  import opened Wrappers
  import opened Ir
  import opened Visitor

  /** `node` is asked of each expression, `ty` of each type written in the body. */
  datatype Check = Check(node: Expr -> bool, ty: Type -> bool)

  predicate AllE(c: Check, e: Expr)
    decreases e, 1
  {
    c.node(e) && Inside(c, e)
  }

  /** Everything below the node, and the types the node itself writes. */
  predicate Inside(c: Check, e: Expr)
    decreases e, 0
  {
    match e
    case IntLiteral(_, _) => true
    case BoolLiteral(_, _) => true
    case StringLiteral(_, _) => true
    case NullLiteral(_) => true
    case Ref(_, ty, _) => c.ty(ty)
    case This(ty, _) => c.ty(ty)
    case Binary(_, l, r, ty, _) => c.ty(ty) && AllE(c, l) && AllE(c, r)
    case Conditional(x, t, f, ty, _) => c.ty(ty) && AllE(c, x) && AllE(c, t) && AllE(c, f)
    case Is(x, ty, _) => c.ty(ty) && AllE(c, x)
    case AssignExpr(t, v, ty, _) => c.ty(ty) && AllE(c, t) && AllE(c, v)
    case FieldAccess(t, _, ty, _) => c.ty(ty) && AllE(c, t)
    case Call(receiver, _, _, _, args, ty, _) =>
      c.ty(ty) && (receiver.Some? ==> AllE(c, receiver.value)) && AllEs(c, args)
    case RecordConstruct(_, _, _, args, _) => AllEs(c, args)
    case RecordCopy(t, _, _, _) => AllE(c, t)
    case ConstructorCall(_, _, _, args, _) => AllEs(c, args)
    case Lambda(params, body, ty, _) => c.ty(ty) && AllParams(c, params) && AllSs(c, body)
    case UnsupportedTyped(_, ty, _) => c.ty(ty)
  }

  predicate AllEs(c: Check, es: seq<Expr>)
    decreases es, 0
  {
    es == [] || (AllE(c, es[0]) && AllEs(c, es[1..]))
  }

  predicate AllParams(c: Check, params: seq<Param>)
    decreases params, 0
  {
    params == []
    || (c.ty(params[0].ty) && (params[0].defaultValue.Some? ==> AllE(c, params[0].defaultValue.value))
        && AllParams(c, params[1..]))
  }

  predicate AllSs(c: Check, ss: seq<Stmt>)
    decreases ss, 0
  {
    ss == [] || (AllS(c, ss[0]) && AllSs(c, ss[1..]))
  }

  predicate AllS(c: Check, s: Stmt)
    decreases s, 0
  {
    match s
    case Return(e) => e.Some? ==> AllE(c, e.value)
    case VarDecl(_, ty, e) => c.ty(ty) && (e.Some? ==> AllE(c, e.value))
    case Assign(_, e) => AllE(c, e)
    case FieldAssign(t, _, e) => AllE(c, t) && AllE(c, e)
    case If(e, t, f) => AllE(c, e) && AllSs(c, t) && AllSs(c, f)
    case While(e, b) => AllE(c, e) && AllSs(c, b)
    case DoWhile(b, e) => AllSs(c, b) && AllE(c, e)
    case For(i, e, n, b) =>
      && (i.Some? ==> AllS(c, i.value)) && (e.Some? ==> AllE(c, e.value))
      && (n.Some? ==> AllS(c, n.value)) && AllSs(c, b)
    case ForEach(_, ty, e, b) => c.ty(ty) && AllE(c, e) && AllSs(c, b)
    case ExprStmt(e) => AllE(c, e)
    case Throw(e) => AllE(c, e)
    case TryCatch(t, ty, _, b) => AllSs(c, t) && c.ty(ty) && AllSs(c, b)
    case TryFinally(t, f) => AllSs(c, t) && AllSs(c, f)
    case Switch(e, cases, _, d) => AllE(c, e) && AllCases(c, cases) && AllSs(c, d)
    case _ => true
  }

  predicate AllCases(c: Check, cases: seq<SwitchCase>)
    decreases cases, 0
  {
    cases == [] || (AllEs(c, cases[0].values) && AllSs(c, cases[0].body) && AllCases(c, cases[1..]))
  }

  /** What is known of a traversal's input: a check it meets, or nothing. */
  predicate KnownE(known: Option<Check>, e: Expr) { known.Some? ==> AllE(known.value, e) }
  predicate KnownEs(known: Option<Check>, es: seq<Expr>) { known.Some? ==> AllEs(known.value, es) }
  predicate KnownParams(known: Option<Check>, params: seq<Param>) { known.Some? ==> AllParams(known.value, params) }
  predicate KnownSs(known: Option<Check>, ss: seq<Stmt>) { known.Some? ==> AllSs(known.value, ss) }
  predicate KnownS(known: Option<Check>, s: Stmt) { known.Some? ==> AllS(known.value, s) }
  predicate KnownCases(known: Option<Check>, cases: seq<SwitchCase>) { known.Some? ==> AllCases(known.value, cases) }

  /** A traversal whose hooks turn known types and nodes into good ones, node by node. */
  ghost predicate Carries(h: Hooks, known: Option<Check>, c: Check) {
    && (forall t :: (known.Some? ==> known.value.ty(t)) ==> c.ty(VisitType(h, t)))
    && (forall e :: KnownE(known, e) && Inside(c, VisitChildren(h, e)) ==> AllE(c, VisitExpr(h, e)))
  }

  /** The same where nothing need be known. */
  ghost predicate Establishes(h: Hooks, c: Check) {
    Carries(h, None, c)
  }

  /** Hooks that only replace nodes, on a check that only asks of nodes. */
  lemma NodesEstablish(h: Hooks, c: Check)
    requires (forall t :: c.ty(t)) && forall n | Inside(c, n) :: AllE(c, h.onExpr(n))
    ensures Establishes(h, c)
  {
  }

  lemma {:induction false} CarriedE(h: Hooks, known: Option<Check>, c: Check, e: Expr)
    requires Carries(h, known, c) && KnownE(known, e)
    ensures AllE(c, VisitExpr(h, e))
    decreases e, 1
  {
    CarriedInside(h, known, c, e);
  }

  lemma {:induction false} CarriedInside(h: Hooks, known: Option<Check>, c: Check, e: Expr)
    requires Carries(h, known, c) && KnownE(known, e)
    ensures Inside(c, VisitChildren(h, e))
    decreases e, 0
  {
    if known.Some? { assert Inside(known.value, e); }
    match e
    case Binary(_, l, r, _, _) => CarriedE(h, known, c, l); CarriedE(h, known, c, r);
    case Conditional(x, t, f, _, _) => CarriedE(h, known, c, x); CarriedE(h, known, c, t); CarriedE(h, known, c, f);
    case Is(x, _, _) => CarriedE(h, known, c, x);
    case AssignExpr(t, v, _, _) => CarriedE(h, known, c, t); CarriedE(h, known, c, v);
    case FieldAccess(t, _, _, _) => CarriedE(h, known, c, t);
    case Call(receiver, _, _, _, args, _, _) =>
      if receiver.Some? { CarriedE(h, known, c, receiver.value); }
      CarriedEs(h, known, c, args);
    case RecordConstruct(_, _, _, args, _) => CarriedEs(h, known, c, args);
    case RecordCopy(t, _, _, _) => CarriedE(h, known, c, t);
    case ConstructorCall(_, _, _, args, _) => CarriedEs(h, known, c, args);
    case Lambda(params, body, _, _) => CarriedParams(h, known, c, params); CarriedSs(h, known, c, body);
    case _ =>
  }

  lemma {:induction false} CarriedEs(h: Hooks, known: Option<Check>, c: Check, es: seq<Expr>)
    requires Carries(h, known, c) && KnownEs(known, es)
    ensures AllEs(c, VisitExprs(h, es))
    decreases es, 0
  {
    if es != [] {
      CarriedE(h, known, c, es[0]); CarriedEs(h, known, c, es[1..]);
      assert VisitExprs(h, es)[1..] == VisitExprs(h, es[1..]);
    }
  }

  lemma {:induction false} CarriedParams(h: Hooks, known: Option<Check>, c: Check, params: seq<Param>)
    requires Carries(h, known, c) && KnownParams(known, params)
    ensures AllParams(c, VisitParams(h, params))
    decreases params, 0
  {
    if params != [] {
      if params[0].defaultValue.Some? { CarriedE(h, known, c, params[0].defaultValue.value); }
      CarriedParams(h, known, c, params[1..]);
      assert VisitParams(h, params)[1..] == VisitParams(h, params[1..]);
    }
  }

  /** What the hooks make of a body known to be good holds of its every node and type. */
  lemma {:induction false} CarriedSs(h: Hooks, known: Option<Check>, c: Check, ss: seq<Stmt>)
    requires Carries(h, known, c) && KnownSs(known, ss)
    ensures AllSs(c, VisitStmts(h, ss))
    decreases ss, 0
  {
    if ss != [] {
      CarriedS(h, known, c, ss[0]); CarriedSs(h, known, c, ss[1..]);
      assert VisitStmts(h, ss)[1..] == VisitStmts(h, ss[1..]);
    }
  }

  lemma {:induction false} CarriedS(h: Hooks, known: Option<Check>, c: Check, s: Stmt)
    requires Carries(h, known, c) && KnownS(known, s)
    ensures AllS(c, VisitStmt(h, s))
    decreases s, 1
  {
    if s.If? || s.While? || s.DoWhile? || s.ForEach? || s.TryCatch? || s.TryFinally? {
      CarriedBlocks(h, known, c, s);
    } else {
      CarriedOthers(h, known, c, s);
    }
  }

  lemma {:induction false} CarriedOthers(h: Hooks, known: Option<Check>, c: Check, s: Stmt)
    requires Carries(h, known, c) && KnownS(known, s)
    requires !(s.If? || s.While? || s.DoWhile? || s.ForEach? || s.TryCatch? || s.TryFinally?)
    ensures AllS(c, VisitStmt(h, s))
    decreases s, 0
  {
    match s
    case Return(e) => if e.Some? { CarriedE(h, known, c, e.value); }
    case VarDecl(_, _, e) => if e.Some? { CarriedE(h, known, c, e.value); }
    case Assign(_, e) => CarriedE(h, known, c, e);
    case FieldAssign(t, _, e) => CarriedE(h, known, c, t); CarriedE(h, known, c, e);
    case For(i, e, n, b) =>
      if i.Some? { CarriedS(h, known, c, i.value); }
      if e.Some? { CarriedE(h, known, c, e.value); }
      if n.Some? { CarriedS(h, known, c, n.value); }
      CarriedSs(h, known, c, b);
    case ExprStmt(e) => CarriedE(h, known, c, e);
    case Throw(e) => CarriedE(h, known, c, e);
    case Switch(e, cases, _, d) =>
      CarriedE(h, known, c, e); CarriedCases(h, known, c, cases); CarriedSs(h, known, c, d);
    case _ =>
  }

  lemma {:induction false} CarriedBlocks(h: Hooks, known: Option<Check>, c: Check, s: Stmt)
    requires Carries(h, known, c) && KnownS(known, s)
    requires s.If? || s.While? || s.DoWhile? || s.ForEach? || s.TryCatch? || s.TryFinally?
    ensures AllS(c, VisitStmt(h, s))
    decreases s, 0
  {
    match s
    case If(e, t, f) => CarriedE(h, known, c, e); CarriedSs(h, known, c, t); CarriedSs(h, known, c, f);
    case While(e, b) => CarriedE(h, known, c, e); CarriedSs(h, known, c, b);
    case DoWhile(b, e) => CarriedSs(h, known, c, b); CarriedE(h, known, c, e);
    case ForEach(_, _, e, b) => CarriedE(h, known, c, e); CarriedSs(h, known, c, b);
    case TryCatch(t, _, _, b) => CarriedSs(h, known, c, t); CarriedSs(h, known, c, b);
    case TryFinally(t, f) => CarriedSs(h, known, c, t); CarriedSs(h, known, c, f);
  }

  lemma {:induction false} CarriedCases(h: Hooks, known: Option<Check>, c: Check, cases: seq<SwitchCase>)
    requires Carries(h, known, c) && KnownCases(known, cases)
    ensures AllCases(c, VisitCases(h, cases))
    decreases cases, 0
  {
    if cases != [] {
      CarriedEs(h, known, c, cases[0].values);
      CarriedSs(h, known, c, cases[0].body);
      CarriedCases(h, known, c, cases[1..]);
      assert VisitCases(h, cases)[1..] == VisitCases(h, cases[1..]);
    }
  }

  /** What the hooks establish holds of every node and type of a visited body. */
  lemma VisitedSs(h: Hooks, c: Check, ss: seq<Stmt>)
    requires Establishes(h, c)
    ensures AllSs(c, VisitStmts(h, ss))
  {
    CarriedSs(h, None, c, ss);
  }

  lemma VisitedE(h: Hooks, c: Check, e: Expr)
    requires Establishes(h, c)
    ensures AllE(c, VisitExpr(h, e))
  {
    CarriedE(h, None, c, e);
  }

  lemma VisitedParams(h: Hooks, c: Check, params: seq<Param>)
    requires Establishes(h, c)
    ensures AllParams(c, VisitParams(h, params))
  {
    CarriedParams(h, None, c, params);
  }

  lemma VisitedEs(h: Hooks, c: Check, es: seq<Expr>)
    requires Establishes(h, c)
    ensures AllEs(c, VisitExprs(h, es))
  {
    CarriedEs(h, None, c, es);
  }

  // ----- what two checks together give -----

  ghost predicate Gives(a: Check, b: Check, c: Check) {
    (forall e | a.node(e) && b.node(e) :: c.node(e)) && forall t | a.ty(t) && b.ty(t) :: c.ty(t)
  }

  lemma {:induction false} BothE(a: Check, b: Check, c: Check, e: Expr)
    requires Gives(a, b, c) && AllE(a, e) && AllE(b, e)
    ensures AllE(c, e)
    decreases e, 1
  {
    match e
    case Call(_, _, _, _, _, _, _) => BothParts(a, b, c, e);
    case Lambda(_, _, _, _) => BothParts(a, b, c, e);
    case Binary(_, l, r, _, _) => BothE(a, b, c, l); BothE(a, b, c, r);
    case Conditional(x, t, f, _, _) => BothE(a, b, c, x); BothE(a, b, c, t); BothE(a, b, c, f);
    case Is(x, _, _) => BothE(a, b, c, x);
    case AssignExpr(t, v, _, _) => BothE(a, b, c, t); BothE(a, b, c, v);
    case FieldAccess(t, _, _, _) => BothE(a, b, c, t);
    case RecordConstruct(_, _, _, args, _) => BothEs(a, b, c, args);
    case RecordCopy(t, _, _, _) => BothE(a, b, c, t);
    case ConstructorCall(_, _, _, args, _) => BothEs(a, b, c, args);
    case _ =>
  }

  lemma {:induction false} BothParts(a: Check, b: Check, c: Check, e: Expr)
    requires Gives(a, b, c) && AllE(a, e) && AllE(b, e) && (e.Call? || e.Lambda?)
    ensures AllE(c, e)
    decreases e, 0
  {
    match e
    case Call(receiver, _, _, _, args, _, _) =>
      if receiver.Some? { BothE(a, b, c, receiver.value); }
      BothEs(a, b, c, args);
    case Lambda(params, body, _, _) => BothParams(a, b, c, params); BothSs(a, b, c, body);
  }

  lemma {:induction false} BothEs(a: Check, b: Check, c: Check, es: seq<Expr>)
    requires Gives(a, b, c) && AllEs(a, es) && AllEs(b, es)
    ensures AllEs(c, es)
    decreases es, 0
  {
    if es != [] { BothE(a, b, c, es[0]); BothEs(a, b, c, es[1..]); }
  }

  lemma {:induction false} BothParams(a: Check, b: Check, c: Check, params: seq<Param>)
    requires Gives(a, b, c) && AllParams(a, params) && AllParams(b, params)
    ensures AllParams(c, params)
    decreases params, 0
  {
    if params != [] {
      if params[0].defaultValue.Some? { BothE(a, b, c, params[0].defaultValue.value); }
      BothParams(a, b, c, params[1..]);
    }
  }

  /** A node that meets two checks meets what they imply, wherever it is in a body. */
  lemma {:induction false} BothSs(a: Check, b: Check, c: Check, ss: seq<Stmt>)
    requires Gives(a, b, c) && AllSs(a, ss) && AllSs(b, ss)
    ensures AllSs(c, ss)
    decreases ss, 0
  {
    if ss != [] { BothS(a, b, c, ss[0]); BothSs(a, b, c, ss[1..]); }
  }

  lemma {:induction false} BothS(a: Check, b: Check, c: Check, s: Stmt)
    requires Gives(a, b, c) && AllS(a, s) && AllS(b, s)
    ensures AllS(c, s)
    decreases s, 1
  {
    if s.If? || s.For? || s.ForEach? || s.TryCatch? || s.TryFinally? || s.Switch? {
      BothBlocks(a, b, c, s);
    } else {
      match s
      case Return(e) => if e.Some? { BothE(a, b, c, e.value); }
      case VarDecl(_, _, e) => if e.Some? { BothE(a, b, c, e.value); }
      case Assign(_, e) => BothE(a, b, c, e);
      case FieldAssign(t, _, e) => BothE(a, b, c, t); BothE(a, b, c, e);
      case While(e, w) => BothE(a, b, c, e); BothSs(a, b, c, w);
      case DoWhile(w, e) => BothSs(a, b, c, w); BothE(a, b, c, e);
      case ExprStmt(e) => BothE(a, b, c, e);
      case Throw(e) => BothE(a, b, c, e);
      case _ =>
    }
  }

  lemma {:induction false} BothBlocks(a: Check, b: Check, c: Check, s: Stmt)
    requires Gives(a, b, c) && AllS(a, s) && AllS(b, s)
    requires s.If? || s.For? || s.ForEach? || s.TryCatch? || s.TryFinally? || s.Switch?
    ensures AllS(c, s)
    decreases s, 0
  {
    match s
    case If(e, t, f) => BothE(a, b, c, e); BothSs(a, b, c, t); BothSs(a, b, c, f);
    case For(i, e, n, w) =>
      if i.Some? { BothS(a, b, c, i.value); }
      if e.Some? { BothE(a, b, c, e.value); }
      if n.Some? { BothS(a, b, c, n.value); }
      BothSs(a, b, c, w);
    case ForEach(_, _, e, w) => BothE(a, b, c, e); BothSs(a, b, c, w);
    case TryCatch(t, _, _, w) => BothSs(a, b, c, t); BothSs(a, b, c, w);
    case TryFinally(t, f) => BothSs(a, b, c, t); BothSs(a, b, c, f);
    case Switch(e, cases, _, d) => BothE(a, b, c, e); BothCases(a, b, c, cases); BothSs(a, b, c, d);
  }

  lemma {:induction false} BothCases(a: Check, b: Check, c: Check, cases: seq<SwitchCase>)
    requires Gives(a, b, c) && AllCases(a, cases) && AllCases(b, cases)
    ensures AllCases(c, cases)
    decreases cases, 0
  {
    if cases != [] {
      BothEs(a, b, c, cases[0].values); BothSs(a, b, c, cases[0].body); BothCases(a, b, c, cases[1..]);
    }
  }
}
