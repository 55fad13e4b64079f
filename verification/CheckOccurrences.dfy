/**
 What dropping checks that are always true does to the occurrences in a body:
 each name and `this` still occurs first where it did.  A lambda therefore
 captures what it captured.
 */
module CheckOccurrences {
  import opened Wrappers
  import opened Ir
  import opened Occurrences
  import opened Visitor
  import opened Everywhere
  import opened IsChecks

  /** Assignments have a local or a field on the left, as the IR demands of an lvalue. */
  predicate HasLvalue(e: Expr) {
    e.AssignExpr? ==> !e.target.Conditional?
  }

  /** A check that is dropped has `this` as its outcome, as a cast of `this` is lowered. */
  predicate YieldsThis(ancestors: set<string>, e: Expr) {
    e.Conditional? && ProvablyTrue(VisitChildren(CheckHooks(ancestors), e), ancestors) ==> e.thenExpr.This?
  }

  /** Asked of everything inside a lambda. */
  function Captured(ancestors: set<string>): Check {
    Check(e => HasLvalue(e) && YieldsThis(ancestors, e), t => true)
  }

  /** Asked of everything in a body: outside lambdas a dropped check may yield anything. */
  function Regular(ancestors: set<string>): Check {
    Check(e => HasLvalue(e)
               && (e.Lambda? ==> AllParams(Captured(ancestors), e.params) && AllSs(Captured(ancestors), e.body)),
          t => true)
  }

  lemma {:induction false} TypesKept(a: set<string>, t: Type)
    ensures VisitType(CheckHooks(a), t) == t
    decreases t, 0
  {
    match t
    case List(e) => TypesKept(a, e);
    case Set(e) => TypesKept(a, e);
    case Nullable(e) => TypesKept(a, e);
    case ListCursor(e) => TypesKept(a, e);
    case Map(key, v) => TypesKept(a, key); TypesKept(a, v);
    case Pair(x, y) => TypesKept(a, x); TypesKept(a, y);
    case Callback(r, ps) => TypesKept(a, r); TypeListKept(a, ps);
    case Tuple(es) => TypeListKept(a, es);
    case _ =>
  }

  lemma {:induction false} TypeListKept(a: set<string>, ts: seq<Type>)
    ensures VisitTypes(CheckHooks(a), ts) == ts
    decreases ts, 0
  {
    if ts != [] { TypesKept(a, ts[0]); TypeListKept(a, ts[1..]); }
  }

  // ----- occurrences -----

  /** The same occurrences, in the same order of first occurrence whatever was seen before. */
  ghost predicate Alike(a: seq<Occ>, b: seq<Occ>) {
    Elements(a) == Elements(b) && forall seen :: Firsts(a, seen) == Firsts(b, seen)
  }

  lemma AlikeAppend(a: seq<Occ>, a': seq<Occ>, b: seq<Occ>, b': seq<Occ>)
    requires Alike(a', a) && Alike(b', b)
    ensures Alike(a' + b', a + b)
  {
    ElementsAppend(a, b);
    ElementsAppend(a', b');
    forall seen ensures Firsts(a' + b', seen) == Firsts(a + b, seen) {
      FirstsAppend(a, b, seen);
      FirstsAppend(a', b', seen);
    }
  }

  lemma TaggedElements(os: seq<Occ>)
    ensures forall o :: o in Tagged(os) <==> o.InDefault? && o.inner in os
  {
  }

  lemma {:induction false} FirstsTagged(os: seq<Occ>, seen: set<Occ>, inner: set<Occ>)
    requires forall o | o in os :: InDefault(o) in seen <==> o in inner
    ensures Firsts(Tagged(os), seen) == Tagged(Firsts(os, inner))
    decreases |os|
  {
    if os != [] {
      assert Tagged(os)[1..] == Tagged(os[1..]);
      if os[0] in inner {
        FirstsTagged(os[1..], seen, inner);
      } else {
        FirstsTagged(os[1..], seen + {InDefault(os[0])}, inner + {os[0]});
        assert Firsts(os, inner)[1..] == Firsts(os[1..], inner + {os[0]});
      }
    }
  }

  lemma AlikeTagged(a: seq<Occ>, b: seq<Occ>)
    requires Alike(a, b)
    ensures Alike(Tagged(a), Tagged(b))
  {
    TaggedElements(a);
    TaggedElements(b);
    assert forall o :: o in a <==> o in Elements(a);
    assert forall o :: o in b <==> o in Elements(b);
    forall seen ensures Firsts(Tagged(a), seen) == Firsts(Tagged(b), seen) {
      var inner := set o | o in a && InDefault(o) in seen;
      FirstsTagged(a, seen, inner);
      FirstsTagged(b, seen, inner);
    }
  }

  lemma ThisOccs(e: Expr)
    requires e.This?
    ensures ExprOccs(e) == [Self]
  {
  }

  lemma NullOccs(e: Expr)
    requires e.NullLiteral?
    ensures ExprOccs(e) == []
  {
  }

  /** The check itself mentions `this` twice where its outcome mentions it once. */
  lemma CheckAlike(n: Expr, ancestors: set<string>)
    requires ProvablyTrue(n, ancestors) && n.thenExpr.This?
    ensures Alike(ExprOccs(n.thenExpr), ExprOccs(n))
  {
    ThisOccs(n.condition.operand);
    ThisOccs(n.thenExpr);
    NullOccs(n.elseExpr);
    assert ExprOccs(n.condition) == ExprOccs(n.condition.operand);
    assert ExprOccs(n) == [Self] + [Self] + [];
    forall seen ensures Firsts([Self], seen) == Firsts([Self] + [Self], seen) {
      FirstsAppend([Self], [Self], seen);
      assert [Self][1..] == [];
      assert Firsts([Self], seen + Elements([Self])) == [];
    }
  }

  lemma {:induction false} AlikeE(a: set<string>, e: Expr)
    requires AllE(Captured(a), e)
    ensures Alike(ExprOccs(VisitExpr(CheckHooks(a), e)), ExprOccs(e))
    decreases e, 2
  {
    AlikeChildren(a, e);
    assert YieldsThis(a, e) by { assert Captured(a).node(e); }
    AlikeNode(a, e);
  }

  lemma AlikeNode(a: set<string>, e: Expr)
    requires YieldsThis(a, e)
    ensures Alike(ExprOccs(VisitExpr(CheckHooks(a), e)), ExprOccs(VisitChildren(CheckHooks(a), e)))
  {
    var n := VisitChildren(CheckHooks(a), e);
    if ProvablyTrue(n, a) {
      FormKept(a, e);
      FormKept(a, e.thenExpr);
      assert n.thenExpr == VisitExpr(CheckHooks(a), e.thenExpr);
      CheckAlike(n, a);
    }
  }

  lemma FormKept(a: set<string>, e: Expr)
    ensures var n := VisitChildren(CheckHooks(a), e);
            && (n.Conditional? <==> e.Conditional?) && (n.Ref? <==> e.Ref?) && (n.This? <==> e.This?)
            && (n.FieldAccess? <==> e.FieldAccess?) && (e.Ref? ==> n.name == e.name)
  {
    match e
    case Conditional(_, _, _, _, _) =>
    case Ref(_, _, _) =>
    case This(_, _) =>
    case FieldAccess(_, _, _, _) =>
    case _ =>
  }

  lemma {:induction false} AlikeChildren(a: set<string>, e: Expr)
    requires AllE(Captured(a), e)
    ensures Alike(ExprOccs(VisitChildren(CheckHooks(a), e)), ExprOccs(e))
    decreases e, 1
  {
    assert Inside(Captured(a), e);
    var h := CheckHooks(a);
    match e
    case Binary(_, l, r, _, _) =>
      AlikeE(a, l); AlikeE(a, r);
      AlikeAppend(ExprOccs(l), ExprOccs(VisitExpr(h, l)), ExprOccs(r), ExprOccs(VisitExpr(h, r)));
    case Conditional(_, _, _, _, _) => AlikeConditional(a, e);
    case AssignExpr(_, _, _, _) => AlikeAssign(a, e);
    case Is(x, _, _) => AlikeE(a, x);
    case FieldAccess(t, _, _, _) => AlikeE(a, t);
    case Call(_, _, _, _, _, _, _) => AlikeCall(a, e);
    case RecordConstruct(_, _, _, args, _) => AlikeEs(a, args);
    case RecordCopy(t, _, _, _) => AlikeE(a, t);
    case ConstructorCall(_, _, _, args, _) => AlikeEs(a, args);
    case Lambda(params, body, _, _) =>
      AlikeParams(a, params); AlikeSs(a, body);
      AlikeAppend(ParamOccs(params), ParamOccs(VisitParams(h, params)), StmtsOccs(body),
                  StmtsOccs(VisitStmts(h, body)));
    case _ =>
  }

  lemma {:induction false} AlikeConditional(a: set<string>, e: Expr)
    requires e.Conditional? && AllE(Captured(a), e)
    ensures Alike(ExprOccs(VisitChildren(CheckHooks(a), e)), ExprOccs(e))
    decreases e, 0
  {
    var h := CheckHooks(a);
    var c, t, f := e.condition, e.thenExpr, e.elseExpr;
    AlikeE(a, c); AlikeE(a, t); AlikeE(a, f);
    AlikeAppend(ExprOccs(c), ExprOccs(VisitExpr(h, c)), ExprOccs(t), ExprOccs(VisitExpr(h, t)));
    AlikeAppend(ExprOccs(c) + ExprOccs(t), ExprOccs(VisitExpr(h, c)) + ExprOccs(VisitExpr(h, t)),
                ExprOccs(f), ExprOccs(VisitExpr(h, f)));
  }

  function PutOccs(t: Expr): seq<Occ> {
    if t.Ref? then [Put(t.name)] else if t.This? then [PutSelf] else []
  }

  lemma {:induction false} AlikeAssign(a: set<string>, e: Expr)
    requires e.AssignExpr? && AllE(Captured(a), e)
    ensures Alike(ExprOccs(VisitChildren(CheckHooks(a), e)), ExprOccs(e))
    decreases e, 0
  {
    var h := CheckHooks(a);
    var t, v := e.target, e.rvalue;
    assert Captured(a).node(e);
    AlikeE(a, t); AlikeE(a, v);
    FormKept(a, t);
    AlikeAppend(ExprOccs(t), ExprOccs(VisitExpr(h, t)), ExprOccs(v), ExprOccs(VisitExpr(h, v)));
    assert PutOccs(VisitExpr(h, t)) == PutOccs(t);
    AlikeAppend(ExprOccs(t) + ExprOccs(v), ExprOccs(VisitExpr(h, t)) + ExprOccs(VisitExpr(h, v)), PutOccs(t),
                PutOccs(t));
    assert ExprOccs(e) == ExprOccs(t) + ExprOccs(v) + PutOccs(t);
  }

  lemma {:induction false} AlikeCall(a: set<string>, e: Expr)
    requires e.Call? && AllE(Captured(a), e)
    ensures Alike(ExprOccs(VisitChildren(CheckHooks(a), e)), ExprOccs(e))
    decreases e, 0
  {
    var h := CheckHooks(a);
    AlikeEs(a, e.args);
    if e.receiver.Some? {
      var r := e.receiver.value;
      AlikeE(a, r);
      AlikeAppend(ExprOccs(r), ExprOccs(VisitExpr(h, r)), ExprsOccs(e.args), ExprsOccs(VisitExprs(h, e.args)));
    } else {
      AlikeAppend([], [], ExprsOccs(e.args), ExprsOccs(VisitExprs(h, e.args)));
    }
  }

  lemma {:induction false} AlikeEs(a: set<string>, es: seq<Expr>)
    requires AllEs(Captured(a), es)
    ensures Alike(ExprsOccs(VisitExprs(CheckHooks(a), es)), ExprsOccs(es))
    decreases es, 0
  {
    if es != [] {
      var h := CheckHooks(a);
      AlikeE(a, es[0]); AlikeEs(a, es[1..]);
      assert VisitExprs(h, es)[1..] == VisitExprs(h, es[1..]);
      AlikeAppend(ExprOccs(es[0]), ExprOccs(VisitExpr(h, es[0])), ExprsOccs(es[1..]),
                  ExprsOccs(VisitExprs(h, es[1..])));
    }
  }

  function DefaultOccs(d: Option<Expr>): seq<Occ> {
    if d.Some? then Tagged(ExprOccs(d.value)) else []
  }

  lemma {:induction false} AlikeParams(a: set<string>, params: seq<Param>)
    requires AllParams(Captured(a), params)
    ensures Alike(ParamOccs(VisitParams(CheckHooks(a), params)), ParamOccs(params))
    decreases params, 0
  {
    if params != [] {
      var h, p := CheckHooks(a), params[0];
      var d := if p.defaultValue.Some? then Some(VisitExpr(h, p.defaultValue.value)) else None;
      if p.defaultValue.Some? {
        AlikeE(a, p.defaultValue.value);
        AlikeTagged(ExprOccs(d.value), ExprOccs(p.defaultValue.value));
      }
      AlikeParams(a, params[1..]);
      assert VisitParams(h, params)[1..] == VisitParams(h, params[1..]);
      AlikeAppend([Decl(p.name)], [Decl(p.name)], DefaultOccs(p.defaultValue), DefaultOccs(d));
      AlikeAppend([Decl(p.name)] + DefaultOccs(p.defaultValue), [Decl(p.name)] + DefaultOccs(d),
                  ParamOccs(params[1..]), ParamOccs(VisitParams(h, params[1..])));
      assert ParamOccs(VisitParams(h, params))
          == [Decl(p.name)] + DefaultOccs(d) + ParamOccs(VisitParams(h, params[1..]));
    }
  }

  lemma {:induction false} AlikeSs(a: set<string>, ss: seq<Stmt>)
    requires AllSs(Captured(a), ss)
    ensures Alike(StmtsOccs(VisitStmts(CheckHooks(a), ss)), StmtsOccs(ss))
    decreases ss, 0
  {
    if ss != [] {
      var h := CheckHooks(a);
      AlikeS(a, ss[0]); AlikeSs(a, ss[1..]);
      assert VisitStmts(h, ss)[1..] == VisitStmts(h, ss[1..]);
      AlikeAppend(StmtOccs(ss[0]), StmtOccs(VisitStmt(h, ss[0])), StmtsOccs(ss[1..]),
                  StmtsOccs(VisitStmts(h, ss[1..])));
    }
  }

  lemma {:induction false} AlikeS(a: set<string>, s: Stmt)
    requires AllS(Captured(a), s)
    ensures Alike(StmtOccs(VisitStmt(CheckHooks(a), s)), StmtOccs(s))
    decreases s, 3
  {
    if s.If? || s.While? || s.DoWhile? || s.ForEach? || s.TryCatch? || s.TryFinally? {
      AlikeNested(a, s);
    } else if s.For? {
      AlikeFor(a, s);
    } else if s.Switch? {
      AlikeSwitch(a, s);
    } else {
      AlikeSimple(a, s);
    }
  }

  lemma {:induction false} AlikeSimple(a: set<string>, s: Stmt)
    requires AllS(Captured(a), s)
    requires !(s.If? || s.While? || s.DoWhile? || s.ForEach? || s.TryCatch? || s.TryFinally? || s.For? || s.Switch?)
    ensures Alike(StmtOccs(VisitStmt(CheckHooks(a), s)), StmtOccs(s))
    decreases s, 0
  {
    var h := CheckHooks(a);
    match s
    case Return(e) => if e.Some? { AlikeE(a, e.value); }
    case VarDecl(n, _, e) =>
      if e.Some? {
        AlikeE(a, e.value);
        AlikeAppend(ExprOccs(e.value), ExprOccs(VisitExpr(h, e.value)), [Decl(n)], [Decl(n)]);
      }
    case Assign(n, e) =>
      AlikeE(a, e);
      AlikeAppend(ExprOccs(e), ExprOccs(VisitExpr(h, e)), [Put(n)], [Put(n)]);
    case FieldAssign(t, _, e) =>
      AlikeE(a, t); AlikeE(a, e);
      AlikeAppend(ExprOccs(t), ExprOccs(VisitExpr(h, t)), ExprOccs(e), ExprOccs(VisitExpr(h, e)));
    case ExprStmt(e) => AlikeE(a, e);
    case Throw(e) => AlikeE(a, e);
    case _ =>
  }

  lemma Alike3(a: seq<Occ>, a': seq<Occ>, b: seq<Occ>, b': seq<Occ>, c: seq<Occ>, c': seq<Occ>)
    requires Alike(a', a) && Alike(b', b) && Alike(c', c)
    ensures Alike(a' + b' + c', a + b + c)
  {
    AlikeAppend(a, a', b, b');
    AlikeAppend(a + b, a' + b', c, c');
  }

  lemma {:induction false} AlikeNested(a: set<string>, s: Stmt)
    requires AllS(Captured(a), s)
    requires s.If? || s.While? || s.DoWhile? || s.ForEach? || s.TryCatch? || s.TryFinally?
    ensures Alike(StmtOccs(VisitStmt(CheckHooks(a), s)), StmtOccs(s))
    decreases s, 0
  {
    var h := CheckHooks(a);
    match s
    case If(e, t, f) =>
      AlikeE(a, e); AlikeSs(a, t); AlikeSs(a, f);
      Alike3(ExprOccs(e), ExprOccs(VisitExpr(h, e)), StmtsOccs(t), StmtsOccs(VisitStmts(h, t)),
             StmtsOccs(f), StmtsOccs(VisitStmts(h, f)));
    case While(e, b) =>
      AlikeE(a, e); AlikeSs(a, b);
      AlikeAppend(ExprOccs(e), ExprOccs(VisitExpr(h, e)), StmtsOccs(b), StmtsOccs(VisitStmts(h, b)));
    case DoWhile(b, e) =>
      AlikeE(a, e); AlikeSs(a, b);
      AlikeAppend(StmtsOccs(b), StmtsOccs(VisitStmts(h, b)), ExprOccs(e), ExprOccs(VisitExpr(h, e)));
    case ForEach(n, _, e, b) =>
      AlikeE(a, e); AlikeSs(a, b);
      Alike3(ExprOccs(e), ExprOccs(VisitExpr(h, e)), [Decl(n)], [Decl(n)], StmtsOccs(b), StmtsOccs(VisitStmts(h, b)));
    case TryCatch(t, _, n, b) =>
      AlikeSs(a, t); AlikeSs(a, b);
      Alike3(StmtsOccs(t), StmtsOccs(VisitStmts(h, t)), [Decl(n)], [Decl(n)], StmtsOccs(b),
             StmtsOccs(VisitStmts(h, b)));
    case TryFinally(t, f) =>
      AlikeSs(a, t); AlikeSs(a, f);
      AlikeAppend(StmtsOccs(t), StmtsOccs(VisitStmts(h, t)), StmtsOccs(f), StmtsOccs(VisitStmts(h, f)));
  }

  function OptionS(s: Option<Stmt>): seq<Occ> { if s.Some? then StmtOccs(s.value) else [] }
  function OptionE(e: Option<Expr>): seq<Occ> { if e.Some? then ExprOccs(e.value) else [] }

  lemma {:induction false} AlikeFor(a: set<string>, s: Stmt)
    requires AllS(Captured(a), s) && s.For?
    ensures Alike(StmtOccs(VisitStmt(CheckHooks(a), s)), StmtOccs(s))
    decreases s, 0
  {
    var h := CheckHooks(a);
    var s' := VisitStmt(h, s);
    if s.start.Some? { AlikeS(a, s.start.value); }
    if s.test.Some? { AlikeE(a, s.test.value); }
    if s.increment.Some? { AlikeS(a, s.increment.value); }
    AlikeSs(a, s.body);
    Alike3(OptionS(s.start), OptionS(s'.start), OptionE(s.test), OptionE(s'.test), OptionS(s.increment),
           OptionS(s'.increment));
    AlikeAppend(OptionS(s.start) + OptionE(s.test) + OptionS(s.increment),
                OptionS(s'.start) + OptionE(s'.test) + OptionS(s'.increment), StmtsOccs(s.body), StmtsOccs(s'.body));
  }

  lemma {:induction false} AlikeSwitch(a: set<string>, s: Stmt)
    requires AllS(Captured(a), s) && s.Switch?
    ensures Alike(StmtOccs(VisitStmt(CheckHooks(a), s)), StmtOccs(s))
    decreases s, 0
  {
    var h := CheckHooks(a);
    AlikeE(a, s.scrutinee); AlikeCases(a, s.cases); AlikeSs(a, s.default);
    Alike3(ExprOccs(s.scrutinee), ExprOccs(VisitExpr(h, s.scrutinee)), CasesOccs(s.cases),
           CasesOccs(VisitCases(h, s.cases)),
           StmtsOccs(s.default), StmtsOccs(VisitStmts(h, s.default)));
  }

  lemma {:induction false} AlikeCases(a: set<string>, cases: seq<SwitchCase>)
    requires AllCases(Captured(a), cases)
    ensures Alike(CasesOccs(VisitCases(CheckHooks(a), cases)), CasesOccs(cases))
    decreases cases, 0
  {
    if cases != [] {
      var h := CheckHooks(a);
      AlikeEs(a, cases[0].values); AlikeSs(a, cases[0].body); AlikeCases(a, cases[1..]);
      assert VisitCases(h, cases)[1..] == VisitCases(h, cases[1..]);
      Alike3(ExprsOccs(cases[0].values), ExprsOccs(VisitExprs(h, cases[0].values)),
             StmtsOccs(cases[0].body), StmtsOccs(VisitStmts(h, cases[0].body)),
             CasesOccs(cases[1..]), CasesOccs(VisitCases(h, cases[1..])));
    }
  }
}
