/**
 Carrying out a renaming keyed by usr: the declarations and every call site of
 the walked regions together.  The walk goes through lambda bodies but not
 through lambda parameter defaults, and through every body but a destructor's.
 */
module Renames {
  import opened Wrappers
  import opened Ir
  import opened Rewriting
  import opened CallNames

  /** The name a call of `usr` spelled `name` gets. */
  type Namer = (string, string) -> string

  function ByUsr(renames: map<string, string>): Namer {
    (usr, name) => if usr in renames then renames[usr] else name
  }

  function RenameE(f: Namer, e: Expr): Expr
    decreases e, 0
  {
    match e
    case Binary(op, l, r, ty, o) => Binary(op, RenameE(f, l), RenameE(f, r), ty, o)
    case Conditional(c, t, x, ty, o) => Conditional(RenameE(f, c), RenameE(f, t), RenameE(f, x), ty, o)
    case Is(x, ty, o) => Is(RenameE(f, x), ty, o)
    case AssignExpr(t, v, ty, o) => AssignExpr(RenameE(f, t), RenameE(f, v), ty, o)
    case FieldAccess(t, field, ty, o) => FieldAccess(RenameE(f, t), field, ty, o)
    case Call(receiver, base, usr, name, args, ty, o) =>
      Call(if receiver.Some? then Some(RenameE(f, receiver.value))
           else None, base, usr, f(usr, name), RenameEs(f, args), ty, o)
    case RecordConstruct(usr, name, names, args, o) => RecordConstruct(usr, name, names, RenameEs(f, args), o)
    case RecordCopy(t, usr, name, o) => RecordCopy(RenameE(f, t), usr, name, o)
    case ConstructorCall(usr, name, index, args, o) => ConstructorCall(usr, name, index, RenameEs(f, args), o)
    case Lambda(params, body, ty, o) => Lambda(params, RenameSs(f, body), ty, o)
    case _ => e
  }

  function RenameEs(f: Namer, es: seq<Expr>): (r: seq<Expr>)
    ensures |r| == |es|
    decreases es, 0
  {
    if es == [] then [] else [RenameE(f, es[0])] + RenameEs(f, es[1..])
  }

  function RenameSs(f: Namer, ss: seq<Stmt>): seq<Stmt>
    decreases ss, 0
  {
    if ss == [] then [] else [RenameS(f, ss[0])] + RenameSs(f, ss[1..])
  }

  function RenameS(f: Namer, s: Stmt): Stmt
    decreases s, 0
  {
    match s
    case Return(e) => Return(if e.Some? then Some(RenameE(f, e.value)) else None)
    case VarDecl(n, ty, e) => VarDecl(n, ty, if e.Some? then Some(RenameE(f, e.value)) else None)
    case Assign(n, e) => Assign(n, RenameE(f, e))
    case FieldAssign(t, field, e) => FieldAssign(RenameE(f, t), field, RenameE(f, e))
    case If(c, t, x) => If(RenameE(f, c), RenameSs(f, t), RenameSs(f, x))
    case While(c, b) => While(RenameE(f, c), RenameSs(f, b))
    case DoWhile(b, c) => DoWhile(RenameSs(f, b), RenameE(f, c))
    case For(i, c, n, b) =>
      For(if i.Some? then Some(RenameS(f, i.value)) else None,
          if c.Some? then Some(RenameE(f, c.value)) else None,
          if n.Some? then Some(RenameS(f, n.value)) else None, RenameSs(f, b))
    case ForEach(n, ty, e, b) => ForEach(n, ty, RenameE(f, e), RenameSs(f, b))
    case ExprStmt(e) => ExprStmt(RenameE(f, e))
    case Throw(e) => Throw(RenameE(f, e))
    case TryCatch(t, ty, n, c) => TryCatch(RenameSs(f, t), ty, n, RenameSs(f, c))
    case TryFinally(t, x) => TryFinally(RenameSs(f, t), RenameSs(f, x))
    case Switch(e, cases, hasDefault, d) => Switch(RenameE(f, e), RenameCases(f, cases), hasDefault, RenameSs(f, d))
    case _ => s
  }

  function RenameCases(f: Namer, cases: seq<SwitchCase>): seq<SwitchCase>
    decreases cases, 0
  {
    if cases == [] then []
    else
      var c := cases[0];
      [SwitchCase(RenameEs(f, c.values), RenameSs(f, c.body), c.tag)] + RenameCases(f, cases[1..])
  }

  function RenameParams(f: Namer, params: seq<Param>): seq<Param> {
    if params == [] then []
    else
      var p := params[0];
      [p.(defaultValue := if p.defaultValue.Some? then Some(RenameE(f, p.defaultValue.value)) else None)]
          + RenameParams(f, params[1..])
  }

  // ----- renaming twice is renaming once -----

  ghost predicate Then(f: Namer, g: Namer, h: Namer) {
    forall u, n :: h(u, n) == g(u, f(u, n))
  }

  lemma {:induction false} FuseE(f: Namer, g: Namer, h: Namer, e: Expr)
    requires Then(f, g, h)
    ensures RenameE(g, RenameE(f, e)) == RenameE(h, e)
    decreases e, 1
  {
    match e
    case Binary(_, _, _, _, _) => FuseParts(f, g, h, e);
    case Conditional(_, _, _, _, _) => FuseParts(f, g, h, e);
    case AssignExpr(_, _, _, _) => FuseParts(f, g, h, e);
    case Call(_, _, _, _, _, _, _) => FuseParts(f, g, h, e);
    case Is(x, _, _) => FuseE(f, g, h, x);
    case FieldAccess(t, _, _, _) => FuseE(f, g, h, t);
    case RecordConstruct(_, _, _, args, _) => FuseEs(f, g, h, args);
    case RecordCopy(t, _, _, _) => FuseE(f, g, h, t);
    case ConstructorCall(_, _, _, args, _) => FuseEs(f, g, h, args);
    case Lambda(_, body, _, _) => FuseSs(f, g, h, body);
    case _ =>
  }

  lemma {:induction false} FuseParts(f: Namer, g: Namer, h: Namer, e: Expr)
    requires Then(f, g, h) && (e.Binary? || e.Conditional? || e.AssignExpr? || e.Call?)
    ensures RenameE(g, RenameE(f, e)) == RenameE(h, e)
    decreases e, 0
  {
    match e
    case Binary(_, l, r, _, _) => FuseE(f, g, h, l); FuseE(f, g, h, r);
    case Conditional(c, t, x, _, _) => FuseE(f, g, h, c); FuseE(f, g, h, t); FuseE(f, g, h, x);
    case AssignExpr(t, v, _, _) => FuseE(f, g, h, t); FuseE(f, g, h, v);
    case Call(receiver, _, _, _, args, _, _) =>
      if receiver.Some? { FuseE(f, g, h, receiver.value); }
      FuseEs(f, g, h, args);
  }

  lemma {:induction false} FuseEs(f: Namer, g: Namer, h: Namer, es: seq<Expr>)
    requires Then(f, g, h)
    ensures RenameEs(g, RenameEs(f, es)) == RenameEs(h, es)
    decreases es, 0
  {
    if es != [] {
      FuseE(f, g, h, es[0]); FuseEs(f, g, h, es[1..]);
      assert RenameEs(f, es)[1..] == RenameEs(f, es[1..]);
    }
  }

  lemma {:induction false} FuseSs(f: Namer, g: Namer, h: Namer, ss: seq<Stmt>)
    requires Then(f, g, h)
    ensures RenameSs(g, RenameSs(f, ss)) == RenameSs(h, ss)
    decreases ss, 0
  {
    if ss != [] {
      FuseS(f, g, h, ss[0]); FuseSs(f, g, h, ss[1..]);
      assert RenameSs(f, ss)[1..] == RenameSs(f, ss[1..]);
    }
  }

  lemma {:induction false} FuseS(f: Namer, g: Namer, h: Namer, s: Stmt)
    requires Then(f, g, h)
    ensures RenameS(g, RenameS(f, s)) == RenameS(h, s)
    decreases s, 2
  {
    if s.For? || s.Switch? {
      FuseLargeS(f, g, h, s);
    } else if s.If? || s.While? || s.DoWhile? || s.ForEach? || s.TryCatch? || s.TryFinally? {
      FuseNestedS(f, g, h, s);
    } else {
      match s
      case Return(e) => if e.Some? { FuseE(f, g, h, e.value); }
      case VarDecl(_, _, e) => if e.Some? { FuseE(f, g, h, e.value); }
      case Assign(_, e) => FuseE(f, g, h, e);
      case FieldAssign(t, _, e) => FuseE(f, g, h, t); FuseE(f, g, h, e);
      case ExprStmt(e) => FuseE(f, g, h, e);
      case Throw(e) => FuseE(f, g, h, e);
      case _ =>
    }
  }

  lemma {:induction false} FuseNestedS(f: Namer, g: Namer, h: Namer, s: Stmt)
    requires Then(f, g, h) && (s.If? || s.While? || s.DoWhile? || s.ForEach? || s.TryCatch? || s.TryFinally?)
    ensures RenameS(g, RenameS(f, s)) == RenameS(h, s)
    decreases s, 1
  {
    match s
    case If(c, t, x) => FuseE(f, g, h, c); FuseSs(f, g, h, t); FuseSs(f, g, h, x);
    case While(c, b) => FuseE(f, g, h, c); FuseSs(f, g, h, b);
    case DoWhile(b, c) => FuseSs(f, g, h, b); FuseE(f, g, h, c);
    case ForEach(_, _, e, b) => FuseE(f, g, h, e); FuseSs(f, g, h, b);
    case TryCatch(t, _, _, c) => FuseSs(f, g, h, t); FuseSs(f, g, h, c);
    case TryFinally(t, x) => FuseSs(f, g, h, t); FuseSs(f, g, h, x);
  }

  lemma {:induction false} FuseLargeS(f: Namer, g: Namer, h: Namer, s: Stmt)
    requires Then(f, g, h) && (s.For? || s.Switch?)
    ensures RenameS(g, RenameS(f, s)) == RenameS(h, s)
    decreases s, 1
  {
    match s
    case For(i, c, n, b) =>
      if i.Some? { FuseS(f, g, h, i.value); }
      if c.Some? { FuseE(f, g, h, c.value); }
      if n.Some? { FuseS(f, g, h, n.value); }
      FuseSs(f, g, h, b);
    case Switch(e, cases, _, d) => FuseE(f, g, h, e); FuseCases(f, g, h, cases); FuseSs(f, g, h, d);
  }

  lemma {:induction false} FuseCases(f: Namer, g: Namer, h: Namer, cases: seq<SwitchCase>)
    requires Then(f, g, h)
    ensures RenameCases(g, RenameCases(f, cases)) == RenameCases(h, cases)
    decreases cases, 0
  {
    if cases != [] {
      FuseEs(f, g, h, cases[0].values); FuseSs(f, g, h, cases[0].body); FuseCases(f, g, h, cases[1..]);
      assert RenameCases(f, cases)[1..] == RenameCases(f, cases[1..]);
    }
  }

  // ----- functions and records -----

  function RenameInit(f: Namer, init: ConstructorInit): ConstructorInit {
    match init
    case FieldInit(n, v) => FieldInit(n, RenameE(f, v))
    case BaseInit(u, n, args) => BaseInit(u, n, RenameEs(f, args))
  }

  function RenameInits(f: Namer, inits: seq<ConstructorInit>): seq<ConstructorInit> {
    if inits == [] then [] else [RenameInit(f, inits[0])] + RenameInits(f, inits[1..])
  }

  function RenameFunction(f: Namer, x: Function): Function {
    x.(name := f(x.usr, x.name), params := RenameParams(f, x.params), body := RenameSs(f, x.body))
  }

  function RenameMethod(f: Namer, m: Method): Method {
    m.(name := f(m.usr, m.name), params := RenameParams(f, m.params),
       body := if m.body.Some? then Some(RenameSs(f, m.body.value)) else None)
  }

  function RenameConstructor(f: Namer, c: Constructor): Constructor {
    c.(params := RenameParams(f, c.params), inits := RenameInits(f, c.inits), body := RenameSs(f, c.body))
  }

  function RenameMethods(f: Namer, ms: seq<Method>): (r: seq<Method>)
    ensures |r| == |ms| && forall i | 0 <= i < |ms| :: r[i] == RenameMethod(f, ms[i])
  {
    if ms == [] then [] else [RenameMethod(f, ms[0])] + RenameMethods(f, ms[1..])
  }

  function RenameConstructors(f: Namer, cs: seq<Constructor>): (r: seq<Constructor>)
    ensures |r| == |cs| && forall i | 0 <= i < |cs| :: r[i] == RenameConstructor(f, cs[i])
  {
    if cs == [] then [] else [RenameConstructor(f, cs[0])] + RenameConstructors(f, cs[1..])
  }

  /** The destructor keeps its calls as they are. */
  function RenameRecord(f: Namer, r: Record): Record {
    r.(methods := RenameMethods(f, r.methods), constructors := RenameConstructors(f, r.constructors))
  }

  function RenameFunctions(f: Namer, xs: seq<Function>): (r: seq<Function>)
    ensures |r| == |xs| && forall i | 0 <= i < |xs| :: r[i] == RenameFunction(f, xs[i])
  {
    if xs == [] then [] else [RenameFunction(f, xs[0])] + RenameFunctions(f, xs[1..])
  }

  function RenameRecords(f: Namer, xs: seq<Record>): (r: seq<Record>)
    ensures |r| == |xs| && forall i | 0 <= i < |xs| :: r[i] == RenameRecord(f, xs[i])
  {
    if xs == [] then [] else [RenameRecord(f, xs[0])] + RenameRecords(f, xs[1..])
  }

  // ----- the walk is a renaming, and of every call -----

  ghost predicate SpeltBy(f: Namer, before: seq<Callee>, after: seq<Callee>) {
    |after| == |before|
    && forall i | 0 <= i < |before| :: after[i] == Callee(before[i].usr, f(before[i].usr, before[i].name))
  }

  lemma Spelt2(f: Namer, a: seq<Callee>, a': seq<Callee>, b: seq<Callee>, b': seq<Callee>)
    requires SpeltBy(f, a, a') && SpeltBy(f, b, b')
    ensures SpeltBy(f, a + b, a' + b')
  {
  }

  lemma Spelt3(f: Namer, a: seq<Callee>, a': seq<Callee>, b: seq<Callee>, b': seq<Callee>, c: seq<Callee>,
               c': seq<Callee>)
    requires SpeltBy(f, a, a') && SpeltBy(f, b, b') && SpeltBy(f, c, c')
    ensures SpeltBy(f, a + b + c, a' + b' + c')
  {
    Spelt2(f, a, a', b, b');
    Spelt2(f, a + b, a' + b', c, c');
  }

  /** What renaming does to an expression: the same but for names, and each call's name by `f`. */
  ghost predicate RenamedE(f: Namer, e: Expr, d: Expr) {
    ExprTo(Renaming(), e, d) && SpeltBy(f, CallsE(e), CallsE(d))
  }

  ghost predicate RenamedO(f: Namer, e: Option<Expr>, d: Option<Expr>) {
    OptionTo(Renaming(), e, d) && SpeltBy(f, CallsO(e), CallsO(d))
  }

  ghost predicate RenamedEs(f: Namer, es: seq<Expr>, ds: seq<Expr>) {
    ExprsTo(Renaming(), es, ds) && SpeltBy(f, CallsEs(es), CallsEs(ds))
  }

  ghost predicate RenamedSs(f: Namer, ss: seq<Stmt>, ts: seq<Stmt>) {
    StmtsTo(Renaming(), ss, ts) && SpeltBy(f, CallsSs(ss), CallsSs(ts))
  }

  ghost predicate RenamedS(f: Namer, s: Stmt, t: Stmt) {
    StmtTo(Renaming(), s, t) && SpeltBy(f, CallsS(s), CallsS(t))
  }

  lemma Inside(e: Expr, mid: Expr, d: Expr)
    requires ExprInside(Renaming(), e, mid) && OnlyCallName(mid, d)
    ensures ExprTo(Renaming(), e, d)
  {
  }

  lemma {:induction false} WalkedE(f: Namer, e: Expr)
    ensures RenamedE(f, e, RenameE(f, e))
    decreases e, 2
  {
    if e.Binary? || e.Conditional? || e.AssignExpr? {
      WalkedOperands(f, e);
    } else if e.Call? {
      WalkedCall(f, e);
    } else {
      WalkedOther(f, e);
    }
  }

  lemma {:induction false} WalkedOther(f: Namer, e: Expr)
    requires !(e.Binary? || e.Conditional? || e.AssignExpr? || e.Call?)
    ensures RenamedE(f, e, RenameE(f, e))
    decreases e, 1
  {
    match e {
      case Is(x, ty, _) => TypeKept(Renaming(), ty); WalkedE(f, x);
      case FieldAccess(t, _, ty, _) => TypeKept(Renaming(), ty); WalkedE(f, t);
      case RecordConstruct(_, _, _, args, _) => WalkedEs(f, args);
      case RecordCopy(t, _, _, _) => WalkedE(f, t);
      case ConstructorCall(_, _, _, args, _) => WalkedEs(f, args);
      case Lambda(_, body, ty, _) => TypeKept(Renaming(), ty); WalkedSs(f, body);
      case Ref(_, ty, _) => TypeKept(Renaming(), ty);
      case This(ty, _) => TypeKept(Renaming(), ty);
      case UnsupportedTyped(_, ty, _) => TypeKept(Renaming(), ty);
      case _ =>
    }
    Inside(e, RenameE(f, e), RenameE(f, e));
  }

  lemma {:induction false} WalkedOperands(f: Namer, e: Expr)
    requires e.Binary? || e.Conditional? || e.AssignExpr?
    ensures RenamedE(f, e, RenameE(f, e))
    decreases e, 1
  {
    TypeKept(Renaming(), e.ty);
    match e {
      case Binary(_, l, r, _, _) =>
        WalkedE(f, l); WalkedE(f, r);
        Spelt2(f, CallsE(l), CallsE(RenameE(f, l)), CallsE(r), CallsE(RenameE(f, r)));
      case Conditional(c, t, x, _, _) =>
        WalkedE(f, c); WalkedE(f, t); WalkedE(f, x);
        Spelt3(f, CallsE(c), CallsE(RenameE(f, c)), CallsE(t), CallsE(RenameE(f, t)), CallsE(x),
               CallsE(RenameE(f, x)));
      case AssignExpr(t, v, _, _) =>
        WalkedE(f, t); WalkedE(f, v);
        Spelt2(f, CallsE(t), CallsE(RenameE(f, t)), CallsE(v), CallsE(RenameE(f, v)));
    }
    Inside(e, RenameE(f, e), RenameE(f, e));
  }

  lemma {:induction false} WalkedCall(f: Namer, e: Expr)
    requires e.Call?
    ensures RenamedE(f, e, RenameE(f, e))
    decreases e, 1
  {
    TypeKept(Renaming(), e.ty);
    var d := RenameE(f, e);
    if e.receiver.Some? { WalkedE(f, e.receiver.value); }
    WalkedEs(f, e.args);
    Spelt3(f, [Callee(e.calleeUsr, e.calleeName)], [Callee(e.calleeUsr, f(e.calleeUsr, e.calleeName))],
           CallsO(e.receiver), CallsO(d.receiver), CallsEs(e.args), CallsEs(d.args));
    Inside(e, d.(calleeName := e.calleeName), d);
  }

  lemma {:induction false} WalkedEs(f: Namer, es: seq<Expr>)
    ensures RenamedEs(f, es, RenameEs(f, es))
    decreases es, 0
  {
    if es != [] {
      WalkedE(f, es[0]); WalkedEs(f, es[1..]);
      assert RenameEs(f, es)[1..] == RenameEs(f, es[1..]);
      Spelt2(f, CallsE(es[0]), CallsE(RenameE(f, es[0])), CallsEs(es[1..]), CallsEs(RenameEs(f, es[1..])));
    }
  }

  lemma {:induction false} WalkedO(f: Namer, e: Option<Expr>)
    ensures RenamedO(f, e, if e.Some? then Some(RenameE(f, e.value)) else None)
    decreases e, 0
  {
    if e.Some? { WalkedE(f, e.value); }
  }

  /** A walked body is the body but for the names of its calls, each of which, in order and at any
      depth, is the one `f` gives it. */
  lemma {:induction false} WalkedSs(f: Namer, ss: seq<Stmt>)
    ensures RenamedSs(f, ss, RenameSs(f, ss))
    decreases ss, 0
  {
    if ss != [] {
      WalkedS(f, ss[0]); WalkedSs(f, ss[1..]);
      assert RenameSs(f, ss)[1..] == RenameSs(f, ss[1..]);
      Spelt2(f, CallsS(ss[0]), CallsS(RenameS(f, ss[0])), CallsSs(ss[1..]), CallsSs(RenameSs(f, ss[1..])));
    }
  }

  lemma {:induction false} WalkedS(f: Namer, s: Stmt)
    ensures RenamedS(f, s, RenameS(f, s))
    decreases s, 2
  {
    if s.For? {
      WalkedFor(f, s);
    } else if s.If? || s.Switch? {
      WalkedBranches(f, s);
    } else if s.While? || s.DoWhile? || s.ForEach? || s.TryCatch? || s.TryFinally? || s.FieldAssign? {
      WalkedPairs(f, s);
    } else {
      match s
      case Return(e) => WalkedO(f, e);
      case VarDecl(_, ty, e) => TypeKept(Renaming(), ty); WalkedO(f, e);
      case Assign(_, e) => WalkedE(f, e);
      case ExprStmt(e) => WalkedE(f, e);
      case Throw(e) => WalkedE(f, e);
      case _ =>
    }
  }

  lemma {:induction false} WalkedPairs(f: Namer, s: Stmt)
    requires s.While? || s.DoWhile? || s.ForEach? || s.TryCatch? || s.TryFinally? || s.FieldAssign?
    ensures RenamedS(f, s, RenameS(f, s))
    decreases s, 1
  {
    match s
    case FieldAssign(t, _, e) =>
      WalkedE(f, t); WalkedE(f, e); Spelt2(f, CallsE(t), CallsE(RenameE(f, t)), CallsE(e), CallsE(RenameE(f, e)));
    case While(c, b) =>
      WalkedE(f, c); WalkedSs(f, b); Spelt2(f, CallsE(c), CallsE(RenameE(f, c)), CallsSs(b), CallsSs(RenameSs(f, b)));
    case DoWhile(b, c) =>
      WalkedSs(f, b); WalkedE(f, c); Spelt2(f, CallsSs(b), CallsSs(RenameSs(f, b)), CallsE(c), CallsE(RenameE(f, c)));
    case ForEach(_, ty, e, b) =>
      TypeKept(Renaming(), ty); WalkedE(f, e); WalkedSs(f, b);
      Spelt2(f, CallsE(e), CallsE(RenameE(f, e)), CallsSs(b), CallsSs(RenameSs(f, b)));
    case TryCatch(t, ty, _, c) =>
      TypeKept(Renaming(), ty); WalkedSs(f, t); WalkedSs(f, c);
      Spelt2(f, CallsSs(t), CallsSs(RenameSs(f, t)), CallsSs(c), CallsSs(RenameSs(f, c)));
    case TryFinally(t, x) =>
      WalkedSs(f, t); WalkedSs(f, x);
      Spelt2(f, CallsSs(t), CallsSs(RenameSs(f, t)), CallsSs(x), CallsSs(RenameSs(f, x)));
  }

  lemma {:induction false} WalkedBranches(f: Namer, s: Stmt)
    requires s.If? || s.Switch?
    ensures RenamedS(f, s, RenameS(f, s))
    decreases s, 1
  {
    var d := RenameS(f, s);
    match s
    case If(c, t, x) =>
      WalkedE(f, c); WalkedSs(f, t); WalkedSs(f, x);
      Spelt3(f, CallsE(c), CallsE(d.condition), CallsSs(t), CallsSs(d.thenBranch), CallsSs(x), CallsSs(d.elseBranch));
    case Switch(e, cases, _, x) =>
      WalkedE(f, e); WalkedCases(f, cases); WalkedSs(f, x);
      Spelt3(f, CallsE(e), CallsE(d.scrutinee), CallsCases(cases), CallsCases(d.cases), CallsSs(x), CallsSs(d.default));
  }

  lemma {:induction false} WalkedFor(f: Namer, s: Stmt)
    requires s.For?
    ensures RenamedS(f, s, RenameS(f, s))
    decreases s, 1
  {
    var d := RenameS(f, s);
    if s.start.Some? { WalkedS(f, s.start.value); }
    WalkedO(f, s.test);
    if s.increment.Some? { WalkedS(f, s.increment.value); }
    WalkedSs(f, s.body);
    var first, first' := if s.start.Some? then CallsS(s.start.value) else [],
                         if d.start.Some? then CallsS(d.start.value) else [];
    var next, next' := if s.increment.Some? then CallsS(s.increment.value) else [],
                       if d.increment.Some? then CallsS(d.increment.value) else [];
    Spelt3(f, first, first', CallsO(s.test), CallsO(d.test), next, next');
    Spelt2(f, first + CallsO(s.test) + next, first' + CallsO(d.test) + next', CallsSs(s.body), CallsSs(d.body));
  }

  lemma {:induction false} WalkedCases(f: Namer, cases: seq<SwitchCase>)
    ensures var after := RenameCases(f, cases);
            CasesTo(Renaming(), cases, after) && SpeltBy(f, CallsCases(cases), CallsCases(after))
    decreases cases, 0
  {
    if cases != [] {
      var after := RenameCases(f, cases);
      WalkedEs(f, cases[0].values); WalkedSs(f, cases[0].body); WalkedCases(f, cases[1..]);
      assert after[1..] == RenameCases(f, cases[1..]);
      Spelt3(f, CallsEs(cases[0].values), CallsEs(after[0].values), CallsSs(cases[0].body), CallsSs(after[0].body),
             CallsCases(cases[1..]), CallsCases(after[1..]));
    }
  }

  lemma {:induction false} WalkedParams(f: Namer, ps: seq<Param>)
    ensures var after := RenameParams(f, ps);
            SameParams(ps, after) && SpeltBy(f, CallsParams(ps), CallsParams(after))
    decreases |ps|
  {
    if ps != [] {
      var after := RenameParams(f, ps);
      WalkedO(f, ps[0].defaultValue);
      WalkedParams(f, ps[1..]);
      assert after[1..] == RenameParams(f, ps[1..]);
      Spelt2(f, CallsO(ps[0].defaultValue), CallsO(after[0].defaultValue), CallsParams(ps[1..]),
             CallsParams(after[1..]));
      assert forall i | 1 <= i < |ps| :: ps[i] == ps[1..][i - 1] && after[i] == after[1..][i - 1];
    }
  }

  lemma WalkedInit(f: Namer, x: ConstructorInit)
    ensures SameInit(x, RenameInit(f, x)) && SpeltBy(f, CallsInit(x), CallsInit(RenameInit(f, x)))
  {
    match x
    case FieldInit(_, v) => WalkedE(f, v);
    case BaseInit(_, _, args) => WalkedEs(f, args);
  }

  lemma {:induction false} WalkedInits(f: Namer, inits: seq<ConstructorInit>)
    ensures var after := RenameInits(f, inits);
            SameInits(inits, after) && SpeltBy(f, CallsInits(inits), CallsInits(after))
    decreases |inits|
  {
    if inits != [] {
      var after := RenameInits(f, inits);
      WalkedInit(f, inits[0]);
      WalkedInits(f, inits[1..]);
      assert after[1..] == RenameInits(f, inits[1..]);
      Spelt2(f, CallsInit(inits[0]), CallsInit(after[0]), CallsInits(inits[1..]), CallsInits(after[1..]));
      assert forall i | 1 <= i < |inits| :: inits[i] == inits[1..][i - 1] && after[i] == after[1..][i - 1];
    }
  }

  lemma SpeltIsRespelt(renames: map<string, string>, before: seq<Callee>, after: seq<Callee>)
    requires SpeltBy(ByUsr(renames), before, after)
    ensures Respelt(renames, before, after)
  {
  }

  lemma WalkedFunction(renames: map<string, string>, x: Function)
    ensures FunctionRenamed(renames, x, RenameFunction(ByUsr(renames), x))
  {
    var f := ByUsr(renames);
    var y := RenameFunction(f, x);
    WalkedParams(f, x.params);
    WalkedSs(f, x.body);
    Spelt2(f, CallsParams(x.params), CallsParams(y.params), CallsSs(x.body), CallsSs(y.body));
    SpeltIsRespelt(renames, CallsOfFunction(x), CallsOfFunction(y));
  }

  lemma WalkedMethod(renames: map<string, string>, x: Method)
    ensures MethodRenamed(renames, x, RenameMethod(ByUsr(renames), x))
  {
    var f := ByUsr(renames);
    var y := RenameMethod(f, x);
    WalkedParams(f, x.params);
    if x.body.Some? {
      WalkedSs(f, x.body.value);
      Spelt2(f, CallsParams(x.params), CallsParams(y.params), CallsSs(x.body.value), CallsSs(y.body.value));
    }
    SpeltIsRespelt(renames, CallsOfMethod(x), CallsOfMethod(y));
  }

  lemma WalkedConstructor(renames: map<string, string>, x: Constructor)
    ensures ConstructorRenamed(renames, x, RenameConstructor(ByUsr(renames), x))
  {
    var f := ByUsr(renames);
    var y := RenameConstructor(f, x);
    WalkedParams(f, x.params);
    WalkedInits(f, x.inits);
    WalkedSs(f, x.body);
    Spelt3(f, CallsParams(x.params), CallsParams(y.params), CallsInits(x.inits), CallsInits(y.inits),
           CallsSs(x.body), CallsSs(y.body));
    SpeltIsRespelt(renames, CallsOfConstructor(x), CallsOfConstructor(y));
  }

  lemma WalkedRecord(renames: map<string, string>, x: Record)
    ensures RecordRenamed(renames, x, RenameRecord(ByUsr(renames), x))
  {
    forall m | m in x.methods ensures MethodRenamed(renames, m, RenameMethod(ByUsr(renames), m)) {
      WalkedMethod(renames, m);
    }
    forall c | c in x.constructors ensures ConstructorRenamed(renames, c, RenameConstructor(ByUsr(renames), c)) {
      WalkedConstructor(renames, c);
    }
  }

  // ----- declarations and calls are renamed together -----

  /** The names after a renaming. */
  function Renamed(renames: map<string, string>, names: string -> string): string -> string {
    usr => NameIn(renames, usr, names(usr))
  }

  lemma RespeltConsistent(renames: map<string, string>, names: string -> string, before: seq<Callee>,
                          after: seq<Callee>)
    requires Respelt(renames, before, after) && SpelledBy(names, before)
    ensures SpelledBy(Renamed(renames, names), after)
  {
  }

  /** Where every walked declaration and call is spelled as `names` says, it is so after a
      renaming, under the renamed names. */
  lemma CallsFollowTheirDeclarations(renames: map<string, string>, names: string -> string, fs: seq<Function>,
                                     rs: seq<Record>, gs: seq<Function>, ss: seq<Record>)
    requires Consistent(names, fs, rs) && ModuleRenamed(renames, fs, rs, gs, ss)
    ensures Consistent(Renamed(renames, names), gs, ss)
  {
    var after := Renamed(renames, names);
    forall i | 0 <= i < |fs| ensures gs[i].name == after(gs[i].usr) && SpelledBy(after, CallsOfFunction(gs[i])) {
      assert FunctionRenamed(renames, fs[i], gs[i]);
      RespeltConsistent(renames, names, CallsOfFunction(fs[i]), CallsOfFunction(gs[i]));
    }
    forall i | 0 <= i < |rs| ensures RecordConsistent(after, ss[i]) {
      RecordFollows(renames, names, rs[i], ss[i]);
    }
  }

  lemma RecordFollows(renames: map<string, string>, names: string -> string, x: Record, y: Record)
    requires RecordConsistent(names, x) && RecordRenamed(renames, x, y)
    ensures RecordConsistent(Renamed(renames, names), y)
  {
    var after := Renamed(renames, names);
    forall j | 0 <= j < |x.methods|
      ensures y.methods[j].name == after(y.methods[j].usr) && SpelledBy(after, CallsOfMethod(y.methods[j]))
    {
      assert MethodRenamed(renames, x.methods[j], y.methods[j]);
      RespeltConsistent(renames, names, CallsOfMethod(x.methods[j]), CallsOfMethod(y.methods[j]));
    }
    forall j | 0 <= j < |x.constructors| ensures SpelledBy(after, CallsOfConstructor(y.constructors[j])) {
      assert ConstructorRenamed(renames, x.constructors[j], y.constructors[j]);
      RespeltConsistent(renames, names, CallsOfConstructor(x.constructors[j]), CallsOfConstructor(y.constructors[j]));
    }
  }

  /** Nothing but names changes, anywhere. */
  lemma OnlyNamesChange(renames: map<string, string>, fs: seq<Function>, rs: seq<Record>, gs: seq<Function>,
                        ss: seq<Record>)
    requires ModuleRenamed(renames, fs, rs, gs, ss)
    ensures SameButNames(fs, rs, gs, ss)
  {
    forall i | 0 <= i < |fs| ensures SameFunction(fs[i], gs[i]) { assert FunctionRenamed(renames, fs[i], gs[i]); }
    forall i | 0 <= i < |rs| ensures SameRecord(rs[i], ss[i]) { assert RecordRenamed(renames, rs[i], ss[i]); }
  }

  /** A destructor is not walked.  Its calls are still spelled right exactly when renaming them
      would have changed nothing. */
  lemma DestructorsAreLeftBehind(renames: map<string, string>, names: string -> string, x: Record, y: Record)
    requires RecordRenamed(renames, x, y) && x.destructor.Some? && SpelledBy(names, CallsSs(x.destructor.value))
    ensures y.destructor == x.destructor
    ensures SpelledBy(Renamed(renames, names), CallsSs(x.destructor.value))
        <==> RenameSs(ByUsr(renames), x.destructor.value) == x.destructor.value
  {
    var f, d := ByUsr(renames), x.destructor.value;
    WalkedSs(f, d);
    if SpelledBy(Renamed(renames, names), CallsSs(d)) {
      assert SpeltBy(f, CallsSs(d), CallsSs(d));
      KeepsSs(f, d);
    }
  }

  method RenameAllFunctions(functions: array<Function>, f: Namer)
    modifies functions
    ensures functions[..] == RenameFunctions(f, old(functions[..]))
  {
    ghost var was := functions[..];
    for i := 0 to functions.Length
      invariant forall k | 0 <= k < i :: functions[k] == RenameFunction(f, was[k])
      invariant forall k | i <= k < functions.Length :: functions[k] == was[k]
    {
      functions[i] := RenameFunction(f, functions[i]);
    }
  }

  method RenameAllRecords(records: array<Record>, f: Namer)
    modifies records
    ensures records[..] == RenameRecords(f, old(records[..]))
  {
    ghost var was := records[..];
    for i := 0 to records.Length
      invariant forall k | 0 <= k < i :: records[k] == RenameRecord(f, was[k])
      invariant forall k | i <= k < records.Length :: records[k] == was[k]
    {
      records[i] := RenameRecord(f, records[i]);
    }
  }

  /** Every function, method and walked call of a usr the renaming knows gets the name it has for
      it; nothing else changes. */
  method ApplyRenames(functions: array<Function>, records: array<Record>, renames: map<string, string>)
    modifies functions, records
    ensures ModuleRenamed(renames, old(functions[..]), old(records[..]), functions[..], records[..])
  {
    ghost var fs, rs := functions[..], records[..];
    WalkedModule(renames, fs, rs);
    if renames == map[] {
      NothingToRename(fs, rs);
      return;
    }
    RenameAllFunctions(functions, ByUsr(renames));
    RenameAllRecords(records, ByUsr(renames));
  }

  lemma WalkedModule(renames: map<string, string>, fs: seq<Function>, rs: seq<Record>)
    ensures ModuleRenamed(renames, fs, rs, RenameFunctions(ByUsr(renames), fs), RenameRecords(ByUsr(renames), rs))
  {
    forall x | x in fs ensures FunctionRenamed(renames, x, RenameFunction(ByUsr(renames), x)) {
      WalkedFunction(renames, x);
    }
    forall x | x in rs ensures RecordRenamed(renames, x, RenameRecord(ByUsr(renames), x)) {
      WalkedRecord(renames, x);
    }
  }

  // ----- a renaming that gives every call the name it has -----

  lemma NothingToRename(fs: seq<Function>, rs: seq<Record>)
    ensures RenameFunctions(ByUsr(map[]), fs) == fs && RenameRecords(ByUsr(map[]), rs) == rs
  {
    var f := ByUsr(map[]);
    forall i | 0 <= i < |fs| ensures RenameFunctions(f, fs)[i] == fs[i] {
      KeepsParams(f, fs[i].params);
      KeepsSs(f, fs[i].body);
    }
    forall i | 0 <= i < |rs| ensures RenameRecords(f, rs)[i] == rs[i] {
      KeepsRecord(f, rs[i]);
    }
  }

  ghost predicate Keeps(f: Namer, calls: seq<Callee>) {
    SpeltBy(f, calls, calls)
  }

  lemma Keep2(f: Namer, a: seq<Callee>, b: seq<Callee>)
    requires Keeps(f, a + b)
    ensures Keeps(f, a) && Keeps(f, b)
  {
    assert a == (a + b)[..|a|] && b == (a + b)[|a|..];
  }

  lemma Keep3(f: Namer, a: seq<Callee>, b: seq<Callee>, c: seq<Callee>)
    requires Keeps(f, a + b + c)
    ensures Keeps(f, a) && Keeps(f, b) && Keeps(f, c)
  {
    Keep2(f, a + b, c);
    Keep2(f, a, b);
  }

  lemma KeepsRecord(f: Namer, r: Record)
    requires forall u, n :: f(u, n) == n
    ensures RenameRecord(f, r) == r
  {
    forall i | 0 <= i < |r.methods| ensures RenameMethods(f, r.methods)[i] == r.methods[i] {
      KeepsParams(f, r.methods[i].params);
      if r.methods[i].body.Some? { KeepsSs(f, r.methods[i].body.value); }
    }
    assert RenameMethods(f, r.methods) == r.methods;
    forall i | 0 <= i < |r.constructors| ensures RenameConstructors(f, r.constructors)[i] == r.constructors[i] {
      KeepsParams(f, r.constructors[i].params);
      KeepsInits(f, r.constructors[i].inits);
      KeepsSs(f, r.constructors[i].body);
    }
    assert RenameConstructors(f, r.constructors) == r.constructors;
  }

  lemma {:induction false} KeepsParams(f: Namer, params: seq<Param>)
    requires forall u, n :: f(u, n) == n
    ensures RenameParams(f, params) == params
    decreases |params|
  {
    if params != [] {
      if params[0].defaultValue.Some? { KeepsE(f, params[0].defaultValue.value); }
      KeepsParams(f, params[1..]);
      assert params == [params[0]] + params[1..];
    }
  }

  lemma {:induction false} KeepsInits(f: Namer, inits: seq<ConstructorInit>)
    requires forall u, n :: f(u, n) == n
    ensures RenameInits(f, inits) == inits
    decreases |inits|
  {
    if inits != [] {
      match inits[0] {
        case FieldInit(_, v) => KeepsE(f, v);
        case BaseInit(_, _, args) => KeepsEs(f, args);
      }
      KeepsInits(f, inits[1..]);
      assert inits == [inits[0]] + inits[1..];
    }
  }

  lemma {:induction false} KeepsE(f: Namer, e: Expr)
    requires Keeps(f, CallsE(e))
    ensures RenameE(f, e) == e
    decreases e, 1
  {
    match e
    case Binary(_, l, r, _, _) => Keep2(f, CallsE(l), CallsE(r)); KeepsE(f, l); KeepsE(f, r);
    case Conditional(c, t, x, _, _) =>
      Keep3(f, CallsE(c), CallsE(t), CallsE(x)); KeepsE(f, c); KeepsE(f, t); KeepsE(f, x);
    case Is(x, _, _) => KeepsE(f, x);
    case AssignExpr(t, v, _, _) => Keep2(f, CallsE(t), CallsE(v)); KeepsE(f, t); KeepsE(f, v);
    case FieldAccess(t, _, _, _) => KeepsE(f, t);
    case Call(_, _, _, _, _, _, _) => KeepsCall(f, e);
    case RecordConstruct(_, _, _, args, _) => KeepsEs(f, args);
    case RecordCopy(t, _, _, _) => KeepsE(f, t);
    case ConstructorCall(_, _, _, args, _) => KeepsEs(f, args);
    case Lambda(_, body, _, _) => KeepsSs(f, body);
    case _ =>
  }

  lemma {:induction false} KeepsCall(f: Namer, e: Expr)
    requires e.Call? && Keeps(f, CallsE(e))
    ensures RenameE(f, e) == e
    decreases e, 0
  {
    var own := Callee(e.calleeUsr, e.calleeName);
    Keep3(f, [own], CallsO(e.receiver), CallsEs(e.args));
    assert [own][0] == own;
    if e.receiver.Some? { KeepsE(f, e.receiver.value); }
    KeepsEs(f, e.args);
  }

  lemma {:induction false} KeepsEs(f: Namer, es: seq<Expr>)
    requires Keeps(f, CallsEs(es))
    ensures RenameEs(f, es) == es
    decreases es, 0
  {
    if es != [] {
      Keep2(f, CallsE(es[0]), CallsEs(es[1..]));
      KeepsE(f, es[0]); KeepsEs(f, es[1..]);
      assert es == [es[0]] + es[1..];
    }
  }

  lemma {:induction false} KeepsO(f: Namer, e: Option<Expr>)
    requires Keeps(f, CallsO(e))
    ensures e.Some? ==> RenameE(f, e.value) == e.value
    decreases e, 0
  {
    if e.Some? { KeepsE(f, e.value); }
  }

  /** A body whose every walked call already has its name is left as it is. */
  lemma {:induction false} KeepsSs(f: Namer, ss: seq<Stmt>)
    requires Keeps(f, CallsSs(ss))
    ensures RenameSs(f, ss) == ss
    decreases ss, 0
  {
    if ss != [] {
      Keep2(f, CallsS(ss[0]), CallsSs(ss[1..]));
      KeepsS(f, ss[0]); KeepsSs(f, ss[1..]);
      assert ss == [ss[0]] + ss[1..];
    }
  }

  lemma {:induction false} KeepsS(f: Namer, s: Stmt)
    requires Keeps(f, CallsS(s))
    ensures RenameS(f, s) == s
    decreases s, 1
  {
    if s.If? || s.While? || s.DoWhile? || s.For? || s.ForEach? || s.TryCatch? || s.TryFinally? || s.Switch? {
      KeepsBlock(f, s);
    } else {
      match s
      case Return(e) => KeepsO(f, e);
      case VarDecl(_, _, e) => KeepsO(f, e);
      case Assign(_, e) => KeepsE(f, e);
      case FieldAssign(t, _, e) => Keep2(f, CallsE(t), CallsE(e)); KeepsE(f, t); KeepsE(f, e);
      case ExprStmt(e) => KeepsE(f, e);
      case Throw(e) => KeepsE(f, e);
      case _ =>
    }
  }

  lemma {:induction false} KeepsBlock(f: Namer, s: Stmt)
    requires Keeps(f, CallsS(s))
    requires s.If? || s.While? || s.DoWhile? || s.For? || s.ForEach? || s.TryCatch? || s.TryFinally? || s.Switch?
    ensures RenameS(f, s) == s
    decreases s, 0
  {
    match s
    case If(c, t, x) => Keep3(f, CallsE(c), CallsSs(t), CallsSs(x)); KeepsE(f, c); KeepsSs(f, t); KeepsSs(f, x);
    case While(c, b) => Keep2(f, CallsE(c), CallsSs(b)); KeepsE(f, c); KeepsSs(f, b);
    case DoWhile(b, c) => Keep2(f, CallsSs(b), CallsE(c)); KeepsE(f, c); KeepsSs(f, b);
    case For(i, c, n, b) =>
      var first, next := if i.Some? then CallsS(i.value) else [], if n.Some? then CallsS(n.value) else [];
      Keep2(f, first + CallsO(c) + next, CallsSs(b));
      Keep3(f, first, CallsO(c), next);
      if i.Some? { KeepsS(f, i.value); }
      KeepsO(f, c);
      if n.Some? { KeepsS(f, n.value); }
      KeepsSs(f, b);
    case ForEach(_, _, e, b) => Keep2(f, CallsE(e), CallsSs(b)); KeepsE(f, e); KeepsSs(f, b);
    case TryCatch(t, _, _, c) => Keep2(f, CallsSs(t), CallsSs(c)); KeepsSs(f, t); KeepsSs(f, c);
    case TryFinally(t, x) => Keep2(f, CallsSs(t), CallsSs(x)); KeepsSs(f, t); KeepsSs(f, x);
    case Switch(e, cases, _, d) =>
      Keep3(f, CallsE(e), CallsCases(cases), CallsSs(d)); KeepsE(f, e); KeepsCases(f, cases); KeepsSs(f, d);
  }

  lemma {:induction false} KeepsCases(f: Namer, cases: seq<SwitchCase>)
    requires Keeps(f, CallsCases(cases))
    ensures RenameCases(f, cases) == cases
    decreases cases, 0
  {
    if cases != [] {
      Keep3(f, CallsEs(cases[0].values), CallsSs(cases[0].body), CallsCases(cases[1..]));
      KeepsEs(f, cases[0].values); KeepsSs(f, cases[0].body); KeepsCases(f, cases[1..]);
      assert cases == [cases[0]] + cases[1..];
    }
  }
}
