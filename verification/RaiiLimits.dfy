/**
 Why the scope-guard rewrite needs each of the conditions under which it is shown
 to keep its meaning: a function for each that breaks one of them and whose
 rewritten body ends differently.
 */
module RaiiLimits {
  import opened Wrappers
  import opened Ir
  import opened Occurrences
  import opened Interp
  import opened Raii
  import opened RaiiMeaning

  const Somewhere := Origin("", 0, 0)
  const Class := Type.Record("R", "R")

  /** `R x = R();` */
  const Built := ConstructorCall("R", "R", 0, [], Somewhere)
  const Local := VarDecl("x", Class, Some(Built))
  const X := Ref("x", Class, Somewhere)
  const Myself := This(Class, Somewhere)

  /** A call of `R()` and what it gives. */
  datatype Construction = Construction(w: World, before: Store, v: Value, st: Store)
  {
    ghost predicate Valid() {
      w.invoke(ConstructorSite("R", 0), None, [], before) == Invoked(st, Val(v))
    }

    function Exec(s: Stmt, env: Env, start: Store, self: Option<Value>): Res { ExecStmt(w, 0, s, env, start, self) }

    /** How `{ R x = R(); rest }` ends: rewritten, and as C++ means it. */
    ghost function Outcomes(rest: Stmt, dtor: seq<Stmt>, params: Frame): (Outcome, Outcome) {
      var dtors: Destructors := map["R" := dtor];
      (Run(w, 0, Guarded([Local, rest], dtors), params, before).out,
       RunScoped(w, 0, [Local, rest], 0, dtor, params, before).out)
    }
  }

  // ----- unfolding both runs -----

  lemma TwoStmts(w: World, s: Stmt, next: Stmt, env: Env, st: Store)
    ensures var r := ExecStmt(w, 0, s, env, st, None);
            ExecStmts(w, 0, [s, next], env, st, None) == if r.out.Normal? then ExecStmt(w, 0, next, r.env, r.st, None)
                else r
  {
    assert [s, next][1..] == [next];
    var r := ExecStmt(w, 0, s, env, st, None);
    SingleStmt(w, 0, next, r.env, r.st, None);
  }

  lemma BlockOfOne(w: World, s: Stmt, env: Env, st: Store)
    ensures var r := ExecStmt(w, 0, s, [map[]] + env, st, None);
            ExecBlock(w, 0, [s], map[], env, st, None) == Res(Pop(r.env), r.st, r.out)
  {
    SingleStmt(w, 0, s, [map[]] + env, st, None);
  }

  lemma FinallyOutcome(w: World, a: seq<Stmt>, b: seq<Stmt>, env: Env, st: Store)
    ensures var t := ExecBlock(w, 0, a, map[], env, st, None);
            var u := ExecBlock(w, 0, b, map[], t.env, t.st, None);
            ExecStmt(w, 0, TryFinally(a, b), env, st, None).out
            == if t.out.OutOfFuel? || u.out.Normal? then t.out else u.out
  {
  }

  lemma GuardOutcome(w: World, rest: Stmt, last: Stmt, env: Env, st: Store)
    ensures var t := ExecStmt(w, 0, rest, [map[]] + env, st, None);
            var u := ExecStmt(w, 0, last, [map[]] + Pop(t.env), t.st, None);
            ExecStmt(w, 0, TryFinally([rest], [last]), env, st, None).out
            == if t.out.OutOfFuel? || u.out.Normal? then t.out else u.out
  {
    FinallyOutcome(w, [rest], [last], env, st);
    BlockOfOne(w, rest, env, st);
    var t := ExecStmt(w, 0, rest, [map[]] + env, st, None);
    BlockOfOne(w, last, Pop(t.env), t.st);
  }

  lemma Constructed(c: Construction, params: Frame)
    requires c.Valid()
    ensures c.Exec(Local, [params], c.before, None) == Res([params["x" := c.v]], c.st, Normal)
    ensures c.Exec(ExprStmt(Built), [params], c.before, None) == Res([params], c.st, Normal)
  {
    assert EvalExprs(c.w, [], [params], c.before, None) == ESRes([params], c.before, Vals([]));
    assert EvalExpr(c.w, Built, [params], c.before, None) == ERes([params], c.st, Val(c.v));
    assert [params][1..] == [];
  }

  /** As C++ means it. */
  lemma Scoped(c: Construction, rest: Stmt, dtor: seq<Stmt>, params: Frame)
    requires c.Valid()
    ensures var r := c.Exec(rest, [params["x" := c.v]], c.st, None);
            var d := ExecStmts(c.w, 0, dtor, [map[]], r.st, Some(c.v));
            c.Outcomes(rest, dtor, params).1
            == if r.out.OutOfFuel? || d.out.Normal? || d.out.Returned? then r.out else d.out
  {
    var body, f := [Local, rest], params["x" := c.v];
    assert body[..0] == [] && body[1..] == [rest];
    Constructed(c, params);
    SingleStmt(c.w, 0, rest, [f], c.st, None);
    assert Lookup([f], "x") == Some(c.v);
  }

  /** Rewritten, with the binding kept and a destructor of one statement. */
  lemma Rewritten(c: Construction, rest: Stmt, dtor: Stmt, params: Frame)
    requires c.Valid() && (StmtReferences(rest, "x") || StmtReferences(ReplaceStmt(dtor, "x"), "x"))
    ensures var t := c.Exec(rest, [map[]] + [params["x" := c.v]], c.st, None);
            var u := c.Exec(ReplaceStmt(dtor, "x"), [map[]] + Pop(t.env), t.st, None);
            c.Outcomes(rest, [dtor], params).0 == if t.out.OutOfFuel? || u.out.Normal? then t.out else u.out
  {
    var dtors: Destructors := map["R" := [dtor]];
    var last := ReplaceStmt(dtor, "x");
    KeptGuard(rest, dtor, dtors);
    TwoStmts(c.w, Local, TryFinally([rest], [last]), [params], c.before);
    Constructed(c, params);
    GuardOutcome(c.w, rest, last, [params["x" := c.v]], c.st);
  }

  lemma KeptGuard(rest: Stmt, dtor: Stmt, dtors: Destructors)
    requires dtors == map["R" := [dtor]] && (StmtReferences(rest, "x") || StmtReferences(ReplaceStmt(dtor, "x"), "x"))
    ensures Guarded([Local, rest], dtors) == [Local, TryFinally([rest], [ReplaceStmt(dtor, "x")])]
  {
    var body := [Local, rest];
    assert GuardIndex(body, dtors) == 0;
    assert body[..0] == [] && body[1..] == [rest];
    assert ReplaceStmts([dtor], "x") == [ReplaceStmt(dtor, "x")];
    ReferencesOne(rest);
    ReferencesOne(ReplaceStmt(dtor, "x"));
  }

  lemma ReferencesOne(s: Stmt)
    ensures StmtsReference([s], "x") == StmtReferences(s, "x")
  {
    assert [s][1..] == [];
  }

  lemma TwoFrames(f: Frame, n: string)
    ensures Lookup([f], n) == Lookup([map[]] + [f], n) == if n in f then Some(f[n]) else None
    ensures ([map[]] + [f])[1..] == [f] && [f][1..] == []
  {
  }

  /** A rest that hands the guarded object to the caller. */
  lemma ReturnsX(c: Construction, f: Frame, st: Store)
    requires "x" in f
    ensures c.Exec(Return(Some(X)), [f], st, None) == Res([f], st, Returned(f["x"]))
    ensures c.Exec(Return(Some(X)), [map[]] + [f], st, None) == Res([map[]] + [f], st, Returned(f["x"]))
    ensures StmtReferences(Return(Some(X)), "x") && Pop([map[]] + [f]) == [f]
  {
    TwoFrames(f, "x");
  }

  /** Both runs of a function that returns the object, down to the destructor. */
  lemma AroundReturn(c: Construction, dtor: Stmt, params: Frame)
    requires c.Valid()
    ensures var f := params["x" := c.v];
            var u := c.Exec(ReplaceStmt(dtor, "x"), [map[]] + [f], c.st, None);
            c.Outcomes(Return(Some(X)), [dtor], params).0 == if u.out.Normal? then Returned(c.v) else u.out
    ensures var d := c.Exec(dtor, [map[]], c.st, Some(c.v));
            c.Outcomes(Return(Some(X)), [dtor], params).1
            == if d.out.Normal? || d.out.Returned? then Returned(c.v) else d.out
  {
    ReturnsX(c, params["x" := c.v], c.st);
    Rewritten(c, Return(Some(X)), dtor, params);
    Scoped(c, Return(Some(X)), [dtor], params);
    SingleStmt(c.w, 0, dtor, [map[]], c.st, Some(c.v));
  }

  // ----- one function for each condition -----

  /** A `return` in the destructor replaces the function's own result. */
  lemma ReturnInDestructorOverrides(c: Construction, params: Frame)
    requires c.Valid()
    ensures c.Outcomes(Return(Some(X)), [Return(None)], params) == (Returned(NullV), Returned(c.v))
  {
    AroundReturn(c, Return(None), params);
  }

  /** After an assignment to the guarded local the destructor runs on another value. */
  lemma AssignedGuardIsNotDestroyed(c: Construction, params: Frame)
    requires c.Valid() && "y" in params
    ensures c.Outcomes(Assign("x", Ref("y", Class, Somewhere)), [Throw(Myself)], params)
        == (Threw(params["y"]), Threw(c.v))
  {
    AssignedRewritten(c, params);
    AssignedScoped(c, params);
  }

  lemma AssignedRewritten(c: Construction, params: Frame)
    requires c.Valid() && "y" in params
    ensures c.Outcomes(Assign("x", Ref("y", Class, Somewhere)), [Throw(Myself)], params).0 == Threw(params["y"])
  {
    var f := params["x" := c.v];
    var g := f["x" := f["y"]];
    TwoFrames(f, "x"); TwoFrames(f, "y"); TwoFrames(g, "x");
    Assigns(c, [map[]] + [f], [map[]] + [g], f["y"]);
    assert ReplaceStmt(Throw(Myself), "x") == Throw(X);
    Throws(c, X, g, c.st, g["x"]);
    Rewritten(c, Assign("x", Ref("y", Class, Somewhere)), Throw(Myself), params);
  }

  lemma AssignedScoped(c: Construction, params: Frame)
    requires c.Valid() && "y" in params
    ensures c.Outcomes(Assign("x", Ref("y", Class, Somewhere)), [Throw(Myself)], params).1 == Threw(c.v)
  {
    var f := params["x" := c.v];
    TwoFrames(f, "x"); TwoFrames(f, "y");
    Assigns(c, [f], [f["x" := f["y"]]], f["y"]);
    Scoped(c, Assign("x", Ref("y", Class, Somewhere)), [Throw(Myself)], params);
    ThrowsMyself(c);
  }

  lemma ThrowsMyself(c: Construction)
    ensures ExecStmts(c.w, 0, [Throw(Myself)], [map[]], c.st, Some(c.v)).out == Threw(c.v)
  {
    SingleStmt(c.w, 0, Throw(Myself), [map[]], c.st, Some(c.v));
  }

  lemma Assigns(c: Construction, env: Env, env': Env, v: Value)
    requires Lookup(env, "x").Some? && Lookup(env, "y") == Some(v) && Update(env, "x", v) == env'
    ensures c.Exec(Assign("x", Ref("y", Class, Somewhere)), env, c.st, None) == Res(env', c.st, Normal)
  {
  }

  lemma Throws(c: Construction, e: Expr, f: Frame, st: Store, v: Value)
    requires e.Ref? && e.name in f && f[e.name] == v
    ensures c.Exec(Throw(e), [map[]] + [f], st, None) == Res([map[]] + [f], st, Threw(v))
  {
    TwoFrames(f, e.name);
  }

  /** A static the destructor reads is captured by a parameter of the same name. */
  lemma SharedNameIsCaptured(c: Construction, params: Frame)
    requires c.Valid() && "n" in c.st.statics && "n" in params
    ensures c.Outcomes(Return(Some(X)), [Throw(Ref("n", Class, Somewhere))], params)
         == (Threw(params["n"]), Threw(c.st.statics["n"]))
  {
    var n := Ref("n", Class, Somewhere);
    AroundReturn(c, Throw(n), params);
    Throws(c, n, params["x" := c.v], c.st, params["n"]);
  }

  /** And by the guarded local, if it has that name. */
  lemma GuardNameIsCaptured(c: Construction, params: Frame)
    requires c.Valid() && "x" in c.st.statics
    ensures c.Outcomes(Return(Some(X)), [Throw(X)], params) == (Threw(c.v), Threw(c.st.statics["x"]))
  {
    AroundReturn(c, Throw(X), params);
    Throws(c, X, params["x" := c.v], c.st, c.v);
  }

  /** A local of the destructor with the guard's name hides the object. */
  lemma GuardNameIsHidden(c: Construction, params: Frame, five: Expr)
    requires c.Valid() && five == IntLiteral(5, Somewhere)
    ensures var hides := If(BoolLiteral(true, Somewhere), [VarDecl("x", Type.Int, Some(five)), Throw(Myself)], []);
            c.Outcomes(Return(Some(X)), [hides], params) == (Threw(IntV(5)), Threw(c.v))
  {
    var decl, truth := VarDecl("x", Type.Int, Some(five)), BoolLiteral(true, Somewhere);
    var hides, renamed := If(truth, [decl, Throw(Myself)], []), If(truth, [decl, Throw(X)], []);
    AroundReturn(c, hides, params);
    HidesRenamed(five);
    DeclaresThenThrows(c, five, X, [map[]] + [params["x" := c.v]], None, IntV(5));
    DeclaresThenThrows(c, five, Myself, [map[]], Some(c.v), c.v);
  }

  lemma HidesRenamed(five: Expr)
    requires five == IntLiteral(5, Somewhere)
    ensures var decl, truth := VarDecl("x", Type.Int, Some(five)), BoolLiteral(true, Somewhere);
            ReplaceStmt(If(truth, [decl, Throw(Myself)], []), "x") == If(truth, [decl, Throw(X)], [])
  {
    var decl := VarDecl("x", Type.Int, Some(five));
    assert [decl, Throw(Myself)][1..] == [Throw(Myself)] && [Throw(Myself)][1..] == [];
    assert ReplaceStmts([Throw(Myself)], "x") == [Throw(X)];
    assert ReplaceStmts([decl, Throw(Myself)], "x") == [decl] + [Throw(X)];
  }

  lemma DeclaresThenThrows(c: Construction, five: Expr, e: Expr, env: Env, self: Option<Value>, v: Value)
    requires five == IntLiteral(5, Somewhere)
    requires (e == X && v == IntV(5)) || (e == Myself && self == Some(v))
    ensures var decl := VarDecl("x", Type.Int, Some(five));
            c.Exec(If(BoolLiteral(true, Somewhere), [decl, Throw(e)], []), env, c.st, self).out == Threw(v)
  {
    var block := [VarDecl("x", Type.Int, Some(five)), Throw(e)];
    HidingBlock(c, five, e, env, self, v);
    assert EvalExpr(c.w, BoolLiteral(true, Somewhere), env, c.st, self) == ERes(env, c.st, Val(BoolV(true)));
    assert ExecBlock(c.w, 0, block, map[], env, c.st, self).out == Threw(v);
  }

  lemma HidingBlock(c: Construction, five: Expr, e: Expr, env: Env, self: Option<Value>, v: Value)
    requires five == IntLiteral(5, Somewhere)
    requires (e == X && v == IntV(5)) || (e == Myself && self == Some(v))
    ensures ExecStmts(c.w, 0, [VarDecl("x", Type.Int, Some(five)), Throw(e)], [map[]] + env, c.st, self).out == Threw(v)
  {
    var decl := VarDecl("x", Type.Int, Some(five));
    var inner := [map["x" := IntV(5)]] + env;
    DeclaresFive(c, five, env, self);
    assert [decl, Throw(e)][1..] == [Throw(e)];
    SingleStmt(c.w, 0, Throw(e), inner, c.st, self);
    assert Lookup(inner, "x") == Some(IntV(5));
  }

  lemma DeclaresFive(c: Construction, five: Expr, env: Env, self: Option<Value>)
    requires five == IntLiteral(5, Somewhere)
    ensures c.Exec(VarDecl("x", Type.Int, Some(five)), [map[]] + env, c.st, self)
         == Res([map["x" := IntV(5)]] + env, c.st, Normal)
  {
    assert Declare([map[]] + env, "x", IntV(5)) == [map["x" := IntV(5)]] + env by {
      assert ([map[]] + env)[1..] == env;
    }
  }

  // ----- lambda parameter defaults -----

  const Capturing := Param("p", Class, Some(X))
  const CapturingThis := Param("p", Class, Some(Myself))

  function LambdaOf(p: Param): Expr { Lambda([p], [], Type.Object, Somewhere) }

  lemma OneOcc(p: Param, o: Occ)
    requires p.defaultValue.Some? && p.name == "p" && ExprOccs(p.defaultValue.value) == [o]
    ensures ParamOccs([p]) + StmtsOccs([]) == [Decl("p"), InDefault(o)]
  {
    assert [p][1..] == [] && [o][1..] == [];
    assert Tagged([o]) == [InDefault(o)] + Tagged([]);
    assert ParamOccs([p]) == [Decl("p")] + Tagged([o]) + ParamOccs([]);
  }

  lemma CapturesOne(p: Param, o: Occ, env: Env, self: Option<Value>)
    requires p.defaultValue.Some? && p.name == "p" && ExprOccs(p.defaultValue.value) == [o]
    ensures Closure([p], [], Somewhere, env, self) == ClosV(Somewhere, CaptureOne(o, {"p"}, env, self))
  {
    var used := InDefault(o);
    var os := [Decl("p"), used];
    OneOcc(p, o);
    assert DeclaredNames(os) == {"p"};
    assert os[1..] == [used] && [used][1..] == [];
    assert Firsts(os, {}) == [Decl("p")] + Firsts([used], {} + {Decl("p")});
    assert Firsts(os, {}) == os;
    assert Capture([used], {"p"}, env, self) == CaptureOne(used, {"p"}, env, self) + Capture([], {"p"}, env, self);
    assert Capture(os, {"p"}, env, self) == CaptureOne(Decl("p"), {"p"}, env, self) + Capture([used], {"p"}, env, self);
  }

  lemma GivesClosure(c: Construction, p: Param, o: Occ, env: Env, self: Option<Value>)
    requires p.defaultValue.Some? && p.name == "p" && ExprOccs(p.defaultValue.value) == [o]
    ensures var closure := ClosV(Somewhere, CaptureOne(o, {"p"}, env, self));
            && c.Exec(Throw(LambdaOf(p)), env, c.st, self).out == Threw(closure)
            && c.Exec(Return(Some(LambdaOf(p))), env, c.st, self) == Res(env, c.st, Returned(closure))
  {
    CapturesOne(p, o, env, self);
    var closure := ClosV(Somewhere, CaptureOne(o, {"p"}, env, self));
    assert EvalExpr(c.w, LambdaOf(p), env, c.st, self) == ERes(env, c.st, Val(closure));
  }

  lemma DefaultKept()
    ensures ReplaceStmt(Throw(LambdaOf(CapturingThis)), "x") == Throw(LambdaOf(CapturingThis))
    ensures ExprOccs(Myself) == [Self] && ExprOccs(X) == [Use("x")]
  {
    assert ReplaceStmts([], "x") == [];
  }

  /** `this` in a lambda parameter default of the destructor stays `this`, and a function that is
      not a member has none. */
  lemma ThisInDefaultStays(c: Construction, params: Frame)
    requires c.Valid()
    ensures c.Outcomes(Return(Some(X)), [Throw(LambdaOf(CapturingThis))], params)
         == (Threw(ClosV(Somewhere, [])), Threw(ClosV(Somewhere, [c.v])))
  {
    AroundReturn(c, Throw(LambdaOf(CapturingThis)), params);
    DefaultKept();
    GivesClosure(c, CapturingThis, Self, [map[]] + [params["x" := c.v]], None);
    GivesClosure(c, CapturingThis, Self, [map[]], Some(c.v));
  }

  /** The reference test does not see a lambda's parameter defaults: the binding is dropped, and
      the closure the function returns no longer captures the object. */
  lemma DefaultsAreNotSearched(c: Construction)
    requires c.Valid()
    ensures c.Outcomes(Return(Some(LambdaOf(Capturing))), [], map[])
         == (Returned(ClosV(Somewhere, [])), Returned(ClosV(Somewhere, [c.v])))
  {
    var rest := Return(Some(LambdaOf(Capturing)));
    DefaultKept();
    ScopedClosure(c, rest);
    var blank: Frame := map[];
    TwoFrames(blank, "x");
    GivesClosure(c, Capturing, Use("x"), [blank] + [blank], None);
    DroppedRun(c, rest);
  }

  lemma ScopedClosure(c: Construction, rest: Stmt)
    requires c.Valid() && rest == Return(Some(LambdaOf(Capturing)))
    ensures c.Outcomes(rest, [], map[]).1 == Returned(ClosV(Somewhere, [c.v]))
  {
    var blank: Frame := map[];
    CapturesX(c, blank["x" := c.v]);
    ScopedEnd(c, rest, blank);
  }

  lemma CapturesX(c: Construction, f: Frame)
    requires "x" in f && f["x"] == c.v
    ensures c.Exec(Return(Some(LambdaOf(Capturing))), [f], c.st, None).out == Returned(ClosV(Somewhere, [c.v]))
  {
    DefaultKept();
    TwoFrames(f, "x");
    GivesClosure(c, Capturing, Use("x"), [f], None);
  }

  /** Where the destructor does nothing. */
  lemma ScopedEnd(c: Construction, rest: Stmt, params: Frame)
    requires c.Valid()
    ensures c.Outcomes(rest, [], params).1 == c.Exec(rest, [params["x" := c.v]], c.st, None).out
  {
    Scoped(c, rest, [], params);
  }

  lemma DroppedRun(c: Construction, rest: Stmt)
    requires c.Valid() && rest == Return(Some(LambdaOf(Capturing)))
    ensures c.Outcomes(rest, [], map[]).0 == c.Exec(rest, [map[]] + [map[]], c.st, None).out
  {
    var blank: Frame := map[];
    DroppedGuard(rest);
    TwoStmts(c.w, ExprStmt(Built), TryFinally([rest], []), [blank], c.before);
    Constructed(c, blank);
    EmptyFinally(c.w, rest, [blank], c.st);
  }

  lemma EmptyFinally(w: World, rest: Stmt, env: Env, st: Store)
    ensures ExecStmt(w, 0, TryFinally([rest], []), env, st, None).out
         == ExecStmt(w, 0, rest, [map[]] + env, st, None).out
  {
    FinallyOutcome(w, [rest], [], env, st);
    BlockOfOne(w, rest, env, st);
    var t := ExecStmt(w, 0, rest, [map[]] + env, st, None);
    assert ExecBlock(w, 0, [], map[], Pop(t.env), t.st, None).out == Normal;
  }

  lemma DroppedGuard(rest: Stmt)
    requires rest == Return(Some(LambdaOf(Capturing)))
    ensures Guarded([Local, rest], map["R" := []]) == [ExprStmt(Built), TryFinally([rest], [])]
  {
    var body, dtors: Destructors := [Local, rest], map["R" := []];
    assert GuardIndex(body, dtors) == 0;
    assert body[..0] == [] && body[1..] == [rest];
    assert ReplaceStmts([], "x") == [];
    assert !ExprReferences(LambdaOf(Capturing), "x");
    ReferencesOne(rest);
  }

  /** An assignment to `this`, which no C++ destructor makes, would become one to the local. */
  lemma AssignedThisIsTheGuard(c: Construction, params: Frame)
    requires c.Valid() && "y" in params
    ensures var assigns := ExprStmt(AssignExpr(Myself, Ref("y", Class, Somewhere), Class, Somewhere));
            c.Outcomes(Return(Some(X)), [assigns], params) == (Returned(c.v), Threw(Stuck))
  {
    var y := Ref("y", Class, Somewhere);
    AroundReturn(c, ExprStmt(AssignExpr(Myself, y, Class, Somewhere)), params);
    AssignThis(c, y, params["x" := c.v]);
  }

  lemma AssignThis(c: Construction, y: Expr, f: Frame)
    requires y == Ref("y", Class, Somewhere) && "y" in f && "x" in f
    ensures var assigns := ExprStmt(AssignExpr(Myself, y, Class, Somewhere));
            && c.Exec(ReplaceStmt(assigns, "x"), [map[]] + [f], c.st, None).out == Normal
            && c.Exec(assigns, [map[]], c.st, Some(c.v)).out == Threw(Stuck)
  {
    assert ReplaceStmt(ExprStmt(AssignExpr(Myself, y, Class, Somewhere)), "x")
        == ExprStmt(AssignExpr(X, y, Class, Somewhere));
    TwoFrames(f, "x"); TwoFrames(f, "y");
  }
}
