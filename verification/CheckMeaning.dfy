/**
 Dropping the checks that are always true changes nothing a run can observe.
 */
module CheckMeaning {
  import opened Wrappers
  import opened Ir
  import opened Occurrences
  import opened Visitor
  import opened Everywhere
  import opened Interp
  import opened Reachability
  import opened IsChecks
  import opened CheckOccurrences

  /** What the induction carries: the receiver and the ancestors of the record whose body it runs. */
  datatype Setting = Setting(k: Receiver, ancestors: set<string>)
  {
    /** The receiver is an instance of every ancestor, and no call changes its class. */
    ghost predicate Valid() {
      && (forall st, ty: Type | k.Alive(st) && ty.Record? && ty.usr in ancestors :: IsA(k.w, st, ObjV(k.id), ty))
      && (forall site, target, vs, st | k.Alive(st) :: k.Alive(k.w.invoke(site, target, vs, st).st))
    }
    function H(): Hooks { CheckHooks(ancestors) }
    function R(): Check { Regular(ancestors) }
    function E(e: Expr, env: Env, st: Store): ERes { EvalExpr(k.w, e, env, st, k.Self()) }
    function Es(es: seq<Expr>, env: Env, st: Store): ESRes { EvalExprs(k.w, es, env, st, k.Self()) }
    function S(fuel: nat, s: Stmt, env: Env, st: Store): Res { ExecStmt(k.w, fuel, s, env, st, k.Self()) }
    function Ss(fuel: nat, ss: seq<Stmt>, env: Env, st: Store): Res { ExecStmts(k.w, fuel, ss, env, st, k.Self()) }
    function B(fuel: nat, ss: seq<Stmt>, f: Frame, env: Env, st: Store): Res {
      ExecBlock(k.w, fuel, ss, f, env, st, k.Self())
    }
  }

  lemma SameNode(c: Setting, e: Expr, env: Env, st: Store)
    requires c.Valid() && c.k.Alive(st)
    ensures c.E(SimplifyOne(e, c.ancestors), env, st) == c.E(e, env, st)
  {
    if ProvablyTrue(e, c.ancestors) {
      assert IsA(c.k.w, st, ObjV(c.k.id), e.condition.targetType);
      assert EvalExpr(c.k.w, e.condition.operand, env, st, c.k.Self()) == ERes(env, st, Val(ObjV(c.k.id)));
      assert EvalExpr(c.k.w, e.condition, env, st, c.k.Self()) == ERes(env, st, Val(BoolV(true)));
    }
  }

  lemma {:induction false} SameEval(c: Setting, e: Expr, env: Env, st: Store)
    requires c.Valid() && c.k.Alive(st) && AllE(c.R(), e)
    ensures c.E(VisitExpr(c.H(), e), env, st) == c.E(e, env, st)
    ensures c.k.Alive(c.E(e, env, st).st)
    decreases e, 3
  {
    SameChildren(c, e, env, st);
    SameNode(c, VisitChildren(c.H(), e), env, st);
  }

  lemma {:induction false} SameChildren(c: Setting, e: Expr, env: Env, st: Store)
    requires c.Valid() && c.k.Alive(st) && AllE(c.R(), e)
    ensures c.E(VisitChildren(c.H(), e), env, st) == c.E(e, env, st)
    ensures c.k.Alive(c.E(e, env, st).st)
    decreases e, 2
  {
    assert Inside(c.R(), e) && c.R().node(e);
    if e.Binary? {
      SameBinary(c, e, env, st);
    } else if e.Conditional? {
      SameConditional(c, e, env, st);
    } else if e.AssignExpr? {
      SameAssign(c, e, env, st);
    } else if e.Call? {
      SameCall(c, e, env, st);
    } else if e.Lambda? {
      SameLambda(c, e, env, st);
    } else {
      SameParts(c, e, env, st);
    }
  }

  lemma {:induction false} SameCall(c: Setting, e: Expr, env: Env, st: Store)
    requires e.Call? && c.Valid() && c.k.Alive(st) && AllE(c.R(), e)
    ensures c.E(VisitChildren(c.H(), e), env, st) == c.E(e, env, st)
    ensures c.k.Alive(c.E(e, env, st).st)
    decreases e, 1
  {
    if e.receiver.Some? {
      SameEval(c, e.receiver.value, env, st);
      var t := c.E(e.receiver.value, env, st);
      SameEvals(c, e.args, t.env, t.st);
    } else {
      SameEvals(c, e.args, env, st);
    }
  }

  lemma {:induction false} SameParts(c: Setting, e: Expr, env: Env, st: Store)
    requires !(e.Binary? || e.Conditional? || e.AssignExpr? || e.Call? || e.Lambda?)
    requires c.Valid() && c.k.Alive(st) && AllE(c.R(), e)
    ensures c.E(VisitChildren(c.H(), e), env, st) == c.E(e, env, st)
    ensures c.k.Alive(c.E(e, env, st).st)
    decreases e, 1
  {
    match e
    case Is(x, ty, _) => SameEval(c, x, env, st); TypesKept(c.ancestors, ty);
    case FieldAccess(t, _, _, _) => SameEval(c, t, env, st);
    case RecordConstruct(_, _, _, args, _) => SameEvals(c, args, env, st);
    case RecordCopy(t, _, _, _) => SameEval(c, t, env, st);
    case ConstructorCall(_, _, _, args, _) => SameEvals(c, args, env, st);
    case _ =>
  }

  /** A lambda captures what it captured. */
  lemma SameLambda(c: Setting, e: Expr, env: Env, st: Store)
    requires e.Lambda? && AllParams(Captured(c.ancestors), e.params) && AllSs(Captured(c.ancestors), e.body)
    ensures c.E(VisitChildren(c.H(), e), env, st) == c.E(e, env, st)
  {
    var h := c.H();
    var os, os' := ParamOccs(e.params) + StmtsOccs(e.body),
        ParamOccs(VisitParams(h, e.params)) + StmtsOccs(VisitStmts(h, e.body));
    AlikeParams(c.ancestors, e.params);
    AlikeSs(c.ancestors, e.body);
    AlikeAppend(ParamOccs(e.params), ParamOccs(VisitParams(h, e.params)), StmtsOccs(e.body),
                StmtsOccs(VisitStmts(h, e.body)));
    assert Firsts(os', {}) == Firsts(os, {});
    assert forall o :: (o in os <==> o in Elements(os)) && (o in os' <==> o in Elements(os'));
    assert DeclaredNames(os') == DeclaredNames(os);
  }

  lemma {:induction false} SameBinary(c: Setting, e: Expr, env: Env, st: Store)
    requires e.Binary? && c.Valid() && c.k.Alive(st) && AllE(c.R(), e)
    ensures c.E(VisitChildren(c.H(), e), env, st) == c.E(e, env, st)
    ensures c.k.Alive(c.E(e, env, st).st)
    decreases e, 1
  {
    var e' := VisitChildren(c.H(), e);
    assert e' == Binary(e.op, VisitExpr(c.H(), e.lhs), VisitExpr(c.H(), e.rhs), e'.ty, e.origin);
    SameEval(c, e.lhs, env, st);
    var l := c.E(e.lhs, env, st);
    SameEval(c, e.rhs, l.env, l.st);
    assert EvalBinary(c.k.w, e', env, st, c.k.Self()) == EvalBinary(c.k.w, e, env, st, c.k.Self());
  }

  lemma {:induction false} SameConditional(c: Setting, e: Expr, env: Env, st: Store)
    requires e.Conditional? && c.Valid() && c.k.Alive(st) && AllE(c.R(), e)
    ensures c.E(VisitChildren(c.H(), e), env, st) == c.E(e, env, st)
    ensures c.k.Alive(c.E(e, env, st).st)
    decreases e, 1
  {
    SameEval(c, e.condition, env, st);
    var d := c.E(e.condition, env, st);
    SameEval(c, e.thenExpr, d.env, d.st);
    SameEval(c, e.elseExpr, d.env, d.st);
  }

  lemma {:induction false} SameAssign(c: Setting, e: Expr, env: Env, st: Store)
    requires e.AssignExpr?
    requires c.Valid() && c.k.Alive(st) && AllE(c.R(), e)
    ensures c.E(VisitChildren(c.H(), e), env, st) == c.E(e, env, st)
    ensures c.k.Alive(c.E(e, env, st).st)
    decreases e, 1
  {
    AssignShape(c, e);
    var e' := VisitChildren(c.H(), e);
    if e.target.Ref? {
      SameAssignName(c, e', e, env, st);
    } else if e.target.FieldAccess? {
      SameAssignField(c, e', e, env, st);
    }
    assert EvalAssign(c.k.w, e', env, st, c.k.Self()) == EvalAssign(c.k.w, e, env, st, c.k.Self());
  }

  lemma AssignShape(c: Setting, e: Expr)
    requires e.AssignExpr? && AllE(c.R(), e)
    ensures AllE(c.R(), e.target) && AllE(c.R(), e.rvalue)
    ensures var e', t' := VisitChildren(c.H(), e), VisitExpr(c.H(), e.target);
            && e'.AssignExpr? && e'.target == t' && e'.rvalue == VisitExpr(c.H(), e.rvalue)
            && (e.target.Ref? ==> t' == e.target)
            && (e.target.FieldAccess? ==> t'.FieldAccess? && t'.field == e.target.field
                                          && t'.target == VisitExpr(c.H(), e.target.target))
            && (!e.target.Ref? && !e.target.FieldAccess? ==> !t'.Ref? && !t'.FieldAccess?)
  {
    assert c.R().node(e) && Inside(c.R(), e);
    FormKept(c.ancestors, e.target);
    if e.target.Ref? { TypesKept(c.ancestors, e.target.ty); }
  }

  lemma {:induction false} SameAssignName(c: Setting, e': Expr, e: Expr, env: Env, st: Store)
    requires e.AssignExpr? && e.target.Ref? && e'.AssignExpr?
    requires e'.target == e.target && e'.rvalue == VisitExpr(c.H(), e.rvalue)
    requires c.Valid() && c.k.Alive(st) && AllE(c.R(), e.rvalue)
    ensures EvalAssign(c.k.w, e', env, st, c.k.Self()) == EvalAssign(c.k.w, e, env, st, c.k.Self())
    ensures c.k.Alive(EvalAssign(c.k.w, e, env, st, c.k.Self()).st)
    decreases e, 0
  {
    SameEval(c, e.rvalue, env, st);
  }

  lemma {:induction false} SameAssignField(c: Setting, e': Expr, e: Expr, env: Env, st: Store)
    requires e.AssignExpr? && e.target.FieldAccess? && e'.AssignExpr? && e'.target.FieldAccess?
    requires e'.target.field == e.target.field && e'.target.target == VisitExpr(c.H(), e.target.target)
    requires e'.rvalue == VisitExpr(c.H(), e.rvalue)
    requires c.Valid() && c.k.Alive(st) && AllE(c.R(), e.target) && AllE(c.R(), e.rvalue)
    ensures EvalAssign(c.k.w, e', env, st, c.k.Self()) == EvalAssign(c.k.w, e, env, st, c.k.Self())
    ensures c.k.Alive(EvalAssign(c.k.w, e, env, st, c.k.Self()).st)
    decreases e, 0
  {
    var t := e.target.target;
    assert AllE(c.R(), t) by { assert Inside(c.R(), e.target); }
    SameEval(c, t, env, st);
    var r := c.E(t, env, st);
    SameEval(c, e.rvalue, r.env, r.st);
  }

  lemma {:induction false} SameEvals(c: Setting, es: seq<Expr>, env: Env, st: Store)
    requires c.Valid() && c.k.Alive(st) && AllEs(c.R(), es)
    ensures c.Es(VisitExprs(c.H(), es), env, st) == c.Es(es, env, st)
    ensures c.k.Alive(c.Es(es, env, st).st)
    decreases es, 0
  {
    if es != [] {
      SameEval(c, es[0], env, st);
      var r := c.E(es[0], env, st);
      SameEvals(c, es[1..], r.env, r.st);
      assert VisitExprs(c.H(), es)[1..] == VisitExprs(c.H(), es[1..]);
    }
  }

  ghost predicate SameRes(c: Setting, r': Res, r: Res) {
    r' == r && c.k.Alive(r.st)
  }

  lemma {:induction false} SameStmts(c: Setting, fuel: nat, ss: seq<Stmt>, env: Env, st: Store)
    requires c.Valid() && c.k.Alive(st) && AllSs(c.R(), ss)
    ensures SameRes(c, c.Ss(fuel, VisitStmts(c.H(), ss), env, st), c.Ss(fuel, ss, env, st))
    decreases fuel, ss, 0
  {
    if ss != [] {
      SameStmt(c, fuel, ss[0], env, st);
      var r := c.S(fuel, ss[0], env, st);
      SameStmts(c, fuel, ss[1..], r.env, r.st);
      assert VisitStmts(c.H(), ss)[1..] == VisitStmts(c.H(), ss[1..]);
    }
  }

  lemma {:induction false} SameBlock(c: Setting, fuel: nat, ss: seq<Stmt>, f: Frame, env: Env, st: Store)
    requires c.Valid() && c.k.Alive(st) && AllSs(c.R(), ss)
    ensures SameRes(c, c.B(fuel, VisitStmts(c.H(), ss), f, env, st), c.B(fuel, ss, f, env, st))
    decreases fuel, ss, 1
  {
    SameStmts(c, fuel, ss, [f] + env, st);
  }

  lemma {:induction false} SameStmt(c: Setting, fuel: nat, s: Stmt, env: Env, st: Store)
    requires c.Valid() && c.k.Alive(st) && AllS(c.R(), s)
    ensures SameRes(c, c.S(fuel, VisitStmt(c.H(), s), env, st), c.S(fuel, s, env, st))
    decreases fuel, s, 6
  {
    if s.Return? || s.ExprStmt? || s.Throw? {
      SameValue(c, fuel, s, env, st);
    } else if s.VarDecl? || s.Assign? || s.FieldAssign? {
      SameBinding(c, fuel, s, env, st);
    } else {
      SameControl(c, fuel, s, env, st);
    }
  }

  lemma {:induction false} SameValue(c: Setting, fuel: nat, s: Stmt, env: Env, st: Store)
    requires s.Return? || s.ExprStmt? || s.Throw?
    requires c.Valid() && c.k.Alive(st) && AllS(c.R(), s)
    ensures SameRes(c, c.S(fuel, VisitStmt(c.H(), s), env, st), c.S(fuel, s, env, st))
  {
    match s
    case Return(e) => if e.Some? { SameEval(c, e.value, env, st); }
    case ExprStmt(e) => SameEval(c, e, env, st);
    case Throw(e) => SameEval(c, e, env, st);
  }

  lemma {:induction false} SameBinding(c: Setting, fuel: nat, s: Stmt, env: Env, st: Store)
    requires s.VarDecl? || s.Assign? || s.FieldAssign?
    requires c.Valid() && c.k.Alive(st) && AllS(c.R(), s)
    ensures SameRes(c, c.S(fuel, VisitStmt(c.H(), s), env, st), c.S(fuel, s, env, st))
  {
    if s.FieldAssign? {
      SameFieldAssign(c, fuel, s, env, st);
    } else if s.Assign? {
      SameEval(c, s.value, env, st);
    } else if s.init.Some? {
      SameEval(c, s.init.value, env, st);
    }
  }

  lemma SameFieldAssign(c: Setting, fuel: nat, s: Stmt, env: Env, st: Store)
    requires s.FieldAssign? && c.Valid() && c.k.Alive(st) && AllS(c.R(), s)
    ensures SameRes(c, c.S(fuel, VisitStmt(c.H(), s), env, st), c.S(fuel, s, env, st))
  {
    SameEval(c, s.target, env, st);
    var r := c.E(s.target, env, st);
    SameEval(c, s.value, r.env, r.st);
  }

  lemma {:induction false} SameControl(c: Setting, fuel: nat, s: Stmt, env: Env, st: Store)
    requires !(s.Return? || s.VarDecl? || s.Assign? || s.FieldAssign? || s.ExprStmt? || s.Throw?)
    requires c.Valid() && c.k.Alive(st) && AllS(c.R(), s)
    ensures SameRes(c, c.S(fuel, VisitStmt(c.H(), s), env, st), c.S(fuel, s, env, st))
    decreases fuel, s, 5
  {
    if s.If? {
      SameIf(c, fuel, s, env, st);
    } else if s.While? {
      LoopShape(c, s);
      SameWhile(c, fuel, s, env, st);
    } else if s.DoWhile? {
      LoopShape(c, s);
      SameDoWhile(c, fuel, s, env, st);
    } else if s.For? {
      SameForStmt(c, fuel, s, env, st);
    } else if s.TryCatch? || s.TryFinally? {
      SameTry(c, fuel, s, env, st);
    } else if s.ForEach? || s.Switch? {
      SameBranching(c, fuel, s, env, st);
    }
  }

  lemma {:induction false} SameIf(c: Setting, fuel: nat, s: Stmt, env: Env, st: Store)
    requires s.If?
    requires c.Valid() && c.k.Alive(st) && AllS(c.R(), s)
    ensures SameRes(c, c.S(fuel, VisitStmt(c.H(), s), env, st), c.S(fuel, s, env, st))
    decreases fuel, s, 4
  {
    var If(e, t, f) := s;
    SameEval(c, e, env, st);
    var r := c.E(e, env, st);
    SameBlock(c, fuel, t, map[], r.env, r.st);
    SameBlock(c, fuel, f, map[], r.env, r.st);
  }

  lemma {:induction false} SameBranching(c: Setting, fuel: nat, s: Stmt, env: Env, st: Store)
    requires s.ForEach? || s.Switch?
    requires c.Valid() && c.k.Alive(st) && AllS(c.R(), s)
    ensures SameRes(c, c.S(fuel, VisitStmt(c.H(), s), env, st), c.S(fuel, s, env, st))
    decreases fuel, s, 4
  {
    match s
    case ForEach(_, _, e, _) =>
      SameEval(c, e, env, st);
      var r := c.E(e, env, st);
      if r.r.Val? && r.r.v.ListV? { SameForEach(c, fuel, s, r.r.v.items, r.env, r.st); }
    case Switch(e, cases, _, _) =>
      SameEval(c, e, env, st);
      var r := c.E(e, env, st);
      if r.r.Val? {
        SameSelect(c, cases, r.r.v, r.env, r.st);
        var k := SelectCase(c.k.w, cases, r.r.v, r.env, r.st, c.k.Self());
        if k.failed.None? { SameCase(c, fuel, VisitStmt(c.H(), s), s, k.index, k.env, k.st); }
      }
  }

  lemma {:induction false} SameTry(c: Setting, fuel: nat, s: Stmt, env: Env, st: Store)
    requires s.TryCatch? || s.TryFinally?
    requires c.Valid() && c.k.Alive(st) && AllS(c.R(), s)
    ensures SameRes(c, c.S(fuel, VisitStmt(c.H(), s), env, st), c.S(fuel, s, env, st))
    decreases fuel, s, 4
  {
    SameBlock(c, fuel, s.tryBody, map[], env, st);
    var r := c.B(fuel, s.tryBody, map[], env, st);
    match s
    case TryCatch(_, ty, n, b) =>
      TypesKept(c.ancestors, ty);
      if r.out.Threw? { SameBlock(c, fuel, b, map[n := r.out.value], r.env, r.st); }
    case TryFinally(_, f) => SameBlock(c, fuel, f, map[], r.env, r.st);
  }

  lemma LoopShape(c: Setting, s: Stmt)
    requires (s.While? || s.DoWhile?) && AllS(c.R(), s)
    ensures AllE(c.R(), s.condition) && AllSs(c.R(), s.body)
    ensures var test, body := VisitExpr(c.H(), s.condition), VisitStmts(c.H(), s.body);
            VisitStmt(c.H(), s) == if s.While? then While(test, body) else DoWhile(body, test)
  {
  }

  /** Two loops whose tests, turns and continuations agree. */
  lemma WhileAgrees(k: Receiver, fuel: nat, s': Stmt, s: Stmt, env: Env, st: Store)
    requires s'.While? && s.While?
    requires var e := EvalExpr(k.w, s.condition, env, st, k.Self());
             && EvalExpr(k.w, s'.condition, env, st, k.Self()) == e && k.Alive(e.st)
             && (e.r == Val(BoolV(true)) && fuel > 0 ==>
                  var b := ExecBlock(k.w, fuel, s.body, map[], e.env, e.st, k.Self());
                  var n := ExecWhile(k.w, fuel - 1, s, b.env, b.st, k.Self());
                  && ExecBlock(k.w, fuel, s'.body, map[], e.env, e.st, k.Self()) == b && k.Alive(b.st)
                  && ExecWhile(k.w, fuel - 1, s', b.env, b.st, k.Self()) == n && k.Alive(n.st))
    ensures var r := ExecWhile(k.w, fuel, s, env, st, k.Self());
            ExecWhile(k.w, fuel, s', env, st, k.Self()) == r && k.Alive(r.st)
  {
  }

  lemma {:induction false} SameWhile(c: Setting, fuel: nat, s: Stmt, env: Env, st: Store)
    requires s.While? && c.Valid() && c.k.Alive(st) && AllE(c.R(), s.condition) && AllSs(c.R(), s.body)
    ensures var s' := While(VisitExpr(c.H(), s.condition), VisitStmts(c.H(), s.body));
            SameRes(c, ExecWhile(c.k.w, fuel, s', env, st, c.k.Self()), ExecWhile(c.k.w, fuel, s, env, st, c.k.Self()))
    decreases fuel, s, 0
  {
    SameEval(c, s.condition, env, st);
    var e := c.E(s.condition, env, st);
    if e.r == Val(BoolV(true)) && fuel > 0 {
      SameBlock(c, fuel, s.body, map[], e.env, e.st);
      var r := c.B(fuel, s.body, map[], e.env, e.st);
      SameWhile(c, fuel - 1, s, r.env, r.st);
    }
    WhileAgrees(c.k, fuel, While(VisitExpr(c.H(), s.condition), VisitStmts(c.H(), s.body)), s, env, st);
  }

  lemma DoWhileAgrees(k: Receiver, fuel: nat, s': Stmt, s: Stmt, env: Env, st: Store)
    requires s'.DoWhile? && s.DoWhile? && k.Alive(st)
    requires fuel > 0 ==>
               var b := ExecBlock(k.w, fuel, s.body, map[], env, st, k.Self());
               var e := EvalExpr(k.w, s.condition, b.env, b.st, k.Self());
               var n := ExecDoWhile(k.w, fuel - 1, s, e.env, e.st, k.Self());
               && ExecBlock(k.w, fuel, s'.body, map[], env, st, k.Self()) == b && k.Alive(b.st)
               && EvalExpr(k.w, s'.condition, b.env, b.st, k.Self()) == e && k.Alive(e.st)
               && ExecDoWhile(k.w, fuel - 1, s', e.env, e.st, k.Self()) == n && k.Alive(n.st)
    ensures var r := ExecDoWhile(k.w, fuel, s, env, st, k.Self());
            ExecDoWhile(k.w, fuel, s', env, st, k.Self()) == r && k.Alive(r.st)
  {
  }

  lemma {:induction false} SameDoWhile(c: Setting, fuel: nat, s: Stmt, env: Env, st: Store)
    requires s.DoWhile? && c.Valid() && c.k.Alive(st) && AllE(c.R(), s.condition) && AllSs(c.R(), s.body)
    ensures var s' := DoWhile(VisitStmts(c.H(), s.body), VisitExpr(c.H(), s.condition));
            SameRes(c, ExecDoWhile(c.k.w, fuel, s', env, st, c.k.Self()),
                    ExecDoWhile(c.k.w, fuel, s, env, st, c.k.Self()))
    decreases fuel, s, 0
  {
    if fuel > 0 {
      SameBlock(c, fuel, s.body, map[], env, st);
      var r := c.B(fuel, s.body, map[], env, st);
      SameEval(c, s.condition, r.env, r.st);
      var e := c.E(s.condition, r.env, r.st);
      SameDoWhile(c, fuel - 1, s, e.env, e.st);
    }
    DoWhileAgrees(c.k, fuel, DoWhile(VisitStmts(c.H(), s.body), VisitExpr(c.H(), s.condition)), s, env, st);
  }

  lemma {:induction false} SameForStmt(c: Setting, fuel: nat, s: Stmt, env: Env, st: Store)
    requires s.For? && c.Valid() && c.k.Alive(st) && AllS(c.R(), s)
    ensures SameRes(c, c.S(fuel, VisitStmt(c.H(), s), env, st), c.S(fuel, s, env, st))
    decreases fuel, s, 1
  {
    var inner := [map[]] + env;
    if s.start.None? {
      SameFor(c, fuel, s, inner, st);
    } else {
      SameStmt(c, fuel, s.start.value, inner, st);
      var r := c.S(fuel, s.start.value, inner, st);
      SameFor(c, fuel, s, r.env, r.st);
    }
  }

  lemma ShapeFor(c: Setting, s: Stmt)
    requires s.For?
    ensures var s' := VisitStmt(c.H(), s);
            && s'.For? && s'.body == VisitStmts(c.H(), s.body)
            && s'.test == (if s.test.Some? then Some(VisitExpr(c.H(), s.test.value)) else None)
            && s'.increment == (if s.increment.Some? then Some(VisitStmt(c.H(), s.increment.value)) else None)
  {
  }

  lemma {:induction false} SameIncrement(c: Setting, fuel: nat, s: Stmt, env: Env, st: Store)
    requires s.For? && c.Valid() && c.k.Alive(st) && AllS(c.R(), s)
    ensures SameRes(c, ExecIncrement(c.k.w, fuel, VisitStmt(c.H(), s), env, st, c.k.Self()),
                    ExecIncrement(c.k.w, fuel, s, env, st, c.k.Self()))
    decreases fuel, s, 0, 0
  {
    ShapeFor(c, s);
    if s.increment.Some? { SameStmt(c, fuel, s.increment.value, env, st); }
  }

  lemma {:induction false} SameFor(c: Setting, fuel: nat, s: Stmt, env: Env, st: Store)
    requires s.For? && c.Valid() && c.k.Alive(st) && AllS(c.R(), s)
    ensures SameRes(c, ExecFor(c.k.w, fuel, VisitStmt(c.H(), s), env, st, c.k.Self()),
                    ExecFor(c.k.w, fuel, s, env, st, c.k.Self()))
    decreases fuel, s, 0, 1
  {
    ShapeFor(c, s);
    var s' := VisitStmt(c.H(), s);
    if s.test.Some? { SameEval(c, s.test.value, env, st); }
    var e := if s.test.None? then ERes(env, st, Val(BoolV(true))) else c.E(s.test.value, env, st);
    if e.r == Val(BoolV(true)) && fuel > 0 {
      SameBlock(c, fuel, s.body, map[], e.env, e.st);
      var r := c.B(fuel, s.body, map[], e.env, e.st);
      if !r.out.Broke? && !Leaves(r.out) {
        SameIncrement(c, fuel, s, r.env, r.st);
        var i := ExecIncrement(c.k.w, fuel, s, r.env, r.st, c.k.Self());
        if i.out.Normal? { SameFor(c, fuel - 1, s, i.env, i.st); }
      }
    }
  }

  lemma {:induction false} SameForEach(c: Setting, fuel: nat, s: Stmt, items: seq<Value>, env: Env, st: Store)
    requires s.ForEach? && c.Valid() && c.k.Alive(st) && AllS(c.R(), s)
    ensures SameRes(c, ExecForEach(c.k.w, fuel, VisitStmt(c.H(), s), items, env, st, c.k.Self()),
                    ExecForEach(c.k.w, fuel, s, items, env, st, c.k.Self()))
    decreases fuel, s, 0, |items|
  {
    if items != [] {
      SameBlock(c, fuel, s.body, map[s.name := items[0]], env, st);
      var r := c.B(fuel, s.body, map[s.name := items[0]], env, st);
      SameForEach(c, fuel, s, items[1..], r.env, r.st);
    }
  }

  lemma {:induction false} SameSelect(c: Setting, cases: seq<SwitchCase>, v: Value, env: Env, st: Store)
    requires c.Valid() && c.k.Alive(st) && AllCases(c.R(), cases)
    ensures var k := SelectCase(c.k.w, cases, v, env, st, c.k.Self());
            SelectCase(c.k.w, VisitCases(c.H(), cases), v, env, st, c.k.Self()) == k && c.k.Alive(k.st)
    decreases cases
  {
    if cases != [] {
      SameEvals(c, cases[0].values, env, st);
      var r := c.Es(cases[0].values, env, st);
      SameSelect(c, cases[1..], v, r.env, r.st);
      assert VisitCases(c.H(), cases)[1..] == VisitCases(c.H(), cases[1..]);
    }
  }

  lemma {:induction false} CaseBodyAt(c: Setting, cases: seq<SwitchCase>, k: nat)
    requires AllCases(c.R(), cases)
    ensures |VisitCases(c.H(), cases)| == |cases|
    ensures k < |cases| ==>
              && VisitCases(c.H(), cases)[k].body == VisitStmts(c.H(), cases[k].body)
              && AllSs(c.R(), cases[k].body)
  {
    if cases != [] && k > 0 { CaseBodyAt(c, cases[1..], k - 1); }
    else if cases != [] { CaseBodyAt(c, cases[1..], 0); }
  }

  lemma TagsKept(c: Setting, cases: seq<SwitchCase>, tag: string)
    ensures LabelIndex(VisitCases(c.H(), cases), tag) == LabelIndex(cases, tag)
  {
    if cases != [] {
      TagsKept(c, cases[1..], tag);
      assert VisitCases(c.H(), cases)[1..] == VisitCases(c.H(), cases[1..]);
    }
  }

  lemma CaseAgrees(k: Receiver, fuel: nat, s': Stmt, s: Stmt, index: nat, env: Env, st: Store)
    requires s'.Switch? && s.Switch?
    requires var b := ExecCaseBody(k.w, fuel, s, index, env, st, k.Self());
             && ExecCaseBody(k.w, fuel, s', index, env, st, k.Self()) == b && k.Alive(b.st)
             && (b.out.Jumped? ==>
                  var target := LabelIndex(s.cases, b.out.tag);
                  && LabelIndex(s'.cases, b.out.tag) == target
                  && (target.Some? && fuel > 0 ==>
                       var n := ExecCase(k.w, fuel - 1, s, target.value, b.env, b.st, k.Self());
                       ExecCase(k.w, fuel - 1, s', target.value, b.env, b.st, k.Self()) == n && k.Alive(n.st)))
    ensures var r := ExecCase(k.w, fuel, s, index, env, st, k.Self());
            ExecCase(k.w, fuel, s', index, env, st, k.Self()) == r && k.Alive(r.st)
  {
  }

  /** A `switch` and its simplified copy. */
  ghost predicate SwitchPair(c: Setting, s': Stmt, s: Stmt) {
    && s'.Switch? && s.Switch? && s'.cases == VisitCases(c.H(), s.cases)
    && s'.hasDefault == s.hasDefault && s'.default == VisitStmts(c.H(), s.default)
    && AllCases(c.R(), s.cases) && AllSs(c.R(), s.default)
  }

  lemma {:induction false} SameCase(c: Setting, fuel: nat, s': Stmt, s: Stmt, index: nat, env: Env, st: Store)
    requires SwitchPair(c, s', s) && c.Valid() && c.k.Alive(st)
    ensures SameRes(c, ExecCase(c.k.w, fuel, s', index, env, st, c.k.Self()),
                    ExecCase(c.k.w, fuel, s, index, env, st, c.k.Self()))
    decreases fuel, s, 3
  {
    SameCaseBody(c, fuel, s', s, index, env, st);
    var r := ExecCaseBody(c.k.w, fuel, s, index, env, st, c.k.Self());
    if r.out.Jumped? {
      TagsKept(c, s.cases, r.out.tag);
      var target := LabelIndex(s.cases, r.out.tag);
      if target.Some? && fuel > 0 { SameCase(c, fuel - 1, s', s, target.value, r.env, r.st); }
    }
    CaseAgrees(c.k, fuel, s', s, index, env, st);
  }

  lemma {:induction false} SameCaseBody(c: Setting, fuel: nat, s': Stmt, s: Stmt, index: nat, env: Env, st: Store)
    requires SwitchPair(c, s', s) && c.Valid() && c.k.Alive(st)
    ensures SameRes(c, ExecCaseBody(c.k.w, fuel, s', index, env, st, c.k.Self()),
                    ExecCaseBody(c.k.w, fuel, s, index, env, st, c.k.Self()))
    decreases fuel, s, 2
  {
    CaseBodyAt(c, s.cases, index);
    if index < |s.cases| {
      SameBlock(c, fuel, s.cases[index].body, map[], env, st);
    } else if s.hasDefault {
      SameBlock(c, fuel, s.default, map[], env, st);
    }
  }

  lemma InstanceOfAncestors(k: Receiver, usr: string, ancestors: set<string>)
    requires k.Valid() && k.InstanceOf(usr) && AncestorsOf(k.g, usr, ancestors)
    ensures Setting(k, ancestors).Valid()
  {
    forall st, ty: Type | k.Alive(st) && ty.Record? && ty.usr in ancestors ensures IsA(k.w, st, ObjV(k.id), ty) {
      assert Reaches(k.g, usr, ty.usr);
      if k.cls != usr { ReachesTransitive(k.g, k.cls, usr, ty.usr); }
    }
  }

  /** On any receiver that is the record or inherits from it, a simplified body runs exactly as before. */
  lemma SimplificationPreservesMeaning(k: Receiver, usr: string, ancestors: set<string>, fuel: nat,
                                       body: seq<Stmt>, env: Env, st: Store)
    requires k.Valid() && k.Alive(st) && k.InstanceOf(usr) && AncestorsOf(k.g, usr, ancestors)
    requires AllSs(Regular(ancestors), body)
    ensures ExecStmts(k.w, fuel, SimplifyStmts(body, ancestors), env, st, k.Self())
         == ExecStmts(k.w, fuel, body, env, st, k.Self())
  {
    InstanceOfAncestors(k, usr, ancestors);
    SameStmts(Setting(k, ancestors), fuel, body, env, st);
  }

  const Somewhere := Origin("", 0, 0)

  function Answer(e: Expr): seq<Stmt> { [Return(Some(e))] }

  lemma AnswerOccs(e: Expr)
    ensures StmtsOccs(Answer(e)) == ExprOccs(e)
  {
    assert Answer(e)[1..] == [];
    assert ExprOccs(e) + [] == ExprOccs(e);
  }

  /** In a lambda the outcome has to be `this`: `() => this is T ? 1 : null` captures the
      object, `() => 1` nothing. */
  lemma OtherOutcomesShrinkTheCapture(w: World, ancestors: set<string>, t: string, env: Env, st: Store, self: Value)
    requires t in ancestors
    ensures var this_, one := This(Type.Record(t, t), Somewhere), IntLiteral(1, Somewhere);
            var check := Conditional(Is(this_, Type.Record(t, t), Somewhere), one, NullLiteral(Somewhere), Type.Int,
                                     Somewhere);
            var lambda := Lambda([], Answer(check), Type.Object, Somewhere);
            && EvalExpr(w, lambda, env, st, Some(self)).r == Val(ClosV(Somewhere, [self]))
            && EvalExpr(w, VisitExpr(CheckHooks(ancestors), lambda), env, st, Some(self)).r == Val(ClosV(Somewhere, []))
  {
    var this_, one := This(Type.Record(t, t), Somewhere), IntLiteral(1, Somewhere);
    var check := Conditional(Is(this_, Type.Record(t, t), Somewhere), one, NullLiteral(Somewhere), Type.Int, Somewhere);
    AnswerOccs(check);
    AnswerOccs(one);
    CheckedOccs(check);
    DroppedInLambda(ancestors, check);
    ClosureOfOccs(Answer(check), env, Some(self));
    ClosureOfOccs(Answer(one), env, Some(self));
    assert Firsts([Self], {}) == [Self] by { assert [Self][1..] == []; }
    assert Capture([Self], {}, env, Some(self)) == [self] by { assert [Self][1..] == []; }
  }

  lemma CheckedOccs(e: Expr)
    requires e.Conditional? && e.condition.Is? && e.condition.operand.This? && e.thenExpr.IntLiteral?
        && e.elseExpr.NullLiteral?
    ensures ExprOccs(e) == [Self] && ExprOccs(e.thenExpr) == []
  {
    ThisOccs(e.condition.operand);
    NullOccs(e.elseExpr);
    assert ExprOccs(e.condition) == ExprOccs(e.condition.operand);
    assert ExprOccs(e) == [Self] + [] + [];
  }

  lemma DroppedInLambda(ancestors: set<string>, e: Expr)
    requires ProvablyTrue(e, ancestors) && e.thenExpr.IntLiteral?
    ensures var h := CheckHooks(ancestors);
            VisitExpr(h, Lambda([], Answer(e), Type.Object, Somewhere))
                == Lambda([], Answer(e.thenExpr), Type.Object, Somewhere)
  {
    var h := CheckHooks(ancestors);
    TypesKept(ancestors, e.condition.targetType);
    TypesKept(ancestors, e.condition.operand.ty);
    assert VisitExpr(h, e.condition.operand) == e.condition.operand;
    assert VisitExpr(h, e.condition) == e.condition;
    assert VisitExpr(h, e.elseExpr) == e.elseExpr && VisitExpr(h, e.thenExpr) == e.thenExpr;
    assert VisitExpr(h, e) == e.thenExpr;
    assert Answer(e)[1..] == [];
    assert VisitStmts(h, Answer(e)) == [VisitStmt(h, Answer(e)[0])] + VisitStmts(h, []);
    assert VisitStmts(h, Answer(e)) == Answer(e.thenExpr);
    TypesKept(ancestors, Type.Object);
    var lambda := Lambda([], Answer(e), Type.Object, Somewhere);
    assert VisitChildren(h, lambda) == Lambda(VisitParams(h, []), Answer(e.thenExpr), Type.Object, Somewhere);
  }

  lemma ClosureOfOccs(body: seq<Stmt>, env: Env, self: Option<Value>)
    requires forall o | o in StmtsOccs(body) :: o.Self?
    ensures Closure([], body, Somewhere, env, self)
        == ClosV(Somewhere, Capture(Firsts(StmtsOccs(body), {}), {}, env, self))
  {
    assert ParamOccs([]) + StmtsOccs(body) == StmtsOccs(body);
    assert DeclaredNames(StmtsOccs(body)) == {};
  }
}
