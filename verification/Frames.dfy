/**
 What running code can do to the frames it runs in: it declares names in the
 innermost frame only, it changes no binding of a name it does not assign, and
 it returns only if it contains a `return`.
 */
module Frames {
  import opened Wrappers
  import opened Ir
  import opened Occurrences
  import opened Interp

  /** One name under observation; `put`/`decl`: whether the code may assign or declare it. */
  datatype Watch = Watch(x: string, put: bool, decl: bool)
  {
    ghost predicate Covers(os: seq<Occ>) {
      (Put(x) in os ==> put) && (Decl(x) in os ==> decl)
    }

    ghost predicate FrameKept(f: Frame, f': Frame) {
      f'.Keys == f.Keys && (!put && x in f ==> f'[x] == f[x])
    }

    ghost predicate TopKept(f: Frame, f': Frame) {
      !decl ==> (x in f' <==> x in f) && (!put && x in f ==> f'[x] == f[x])
    }

    ghost predicate Kept(e: Env, e': Env) {
      && e != [] && |e'| == |e|
      && TopKept(e[0], e'[0])
      && (forall k | 1 <= k < |e| :: FrameKept(e[k], e'[k]))
    }

    /** Nothing new even in the innermost frame. */
    ghost predicate AllKept(e: Env, e': Env) {
      e != [] && |e'| == |e| && (forall k | 0 <= k < |e| :: FrameKept(e[k], e'[k]))
    }
  }

  lemma UpdateKept(q: Watch, e: Env, n: string, v: Value)
    requires e != [] && (n == q.x ==> q.put)
    ensures q.AllKept(e, Update(e, n, v))
  {
    if n !in e[0] && e[1..] != [] {
      UpdateKept(q, e[1..], n, v);
      var u := Update(e[1..], n, v);
      forall k | 0 <= k < |e| ensures q.FrameKept(e[k], ([e[0]] + u)[k]) {
        if k > 0 { assert q.FrameKept(e[1..][k - 1], u[k - 1]); }
      }
    }
  }

  lemma Weaken(q: Watch, e: Env, e': Env)
    requires q.AllKept(e, e')
    ensures q.Kept(e, e')
  {
  }

  lemma Chain(q: Watch, e0: Env, e1: Env, e2: Env)
    requires q.Kept(e0, e1) && q.Kept(e1, e2)
    ensures q.Kept(e0, e2)
  {
    forall k | 1 <= k < |e0| ensures q.FrameKept(e0[k], e2[k]) {
      assert q.FrameKept(e0[k], e1[k]) && q.FrameKept(e1[k], e2[k]);
    }
  }

  lemma ChainAll(q: Watch, e0: Env, e1: Env, e2: Env)
    requires q.AllKept(e0, e1) && q.AllKept(e1, e2)
    ensures q.AllKept(e0, e2)
  {
    forall k | 0 <= k < |e0| ensures q.FrameKept(e0[k], e2[k]) {
      assert q.FrameKept(e0[k], e1[k]) && q.FrameKept(e1[k], e2[k]);
    }
  }

  lemma PopKept(q: Watch, f: Frame, e: Env, r: Env)
    requires e != [] && q.Kept([f] + e, r)
    ensures q.AllKept(e, Pop(r))
  {
    forall k | 0 <= k < |e| ensures q.FrameKept(e[k], Pop(r)[k]) {
      assert ([f] + e)[k + 1] == e[k];
      assert q.FrameKept(([f] + e)[k + 1], r[k + 1]);
    }
  }

  // ----- expressions -----

  lemma {:induction false} ExprKeeps(q: Watch, w: World, e: Expr, env: Env, st: Store, self: Option<Value>)
    requires env != [] && q.Covers(ExprOccs(e))
    ensures q.AllKept(env, EvalExpr(w, e, env, st, self).env)
    decreases e, 2
  {
    if e.Binary? || e.Conditional? {
      OperatorKeeps(q, w, e, env, st, self);
    } else if e.AssignExpr? {
      AssignKeeps(q, w, e, env, st, self);
    } else if e.Call? {
      CallKeeps(q, w, e, env, st, self);
    } else {
      PartsKeep(q, w, e, env, st, self);
    }
  }

  lemma {:induction false} OperatorKeeps(q: Watch, w: World, e: Expr, env: Env, st: Store, self: Option<Value>)
    requires (e.Binary? || e.Conditional?) && env != [] && q.Covers(ExprOccs(e))
    ensures q.AllKept(env, EvalExpr(w, e, env, st, self).env)
    decreases e, 1
  {
    match e
    case Binary(_, l, r, _, _) =>
      ExprKeeps(q, w, l, env, st, self);
      var a := EvalExpr(w, l, env, st, self);
      ExprKeeps(q, w, r, a.env, a.st, self);
      ChainAll(q, env, a.env, EvalExpr(w, r, a.env, a.st, self).env);
    case Conditional(c, t, f, _, _) =>
      ExprKeeps(q, w, c, env, st, self);
      var a := EvalExpr(w, c, env, st, self);
      ExprKeeps(q, w, t, a.env, a.st, self);
      ExprKeeps(q, w, f, a.env, a.st, self);
      ChainAll(q, env, a.env, EvalExpr(w, t, a.env, a.st, self).env);
      ChainAll(q, env, a.env, EvalExpr(w, f, a.env, a.st, self).env);
  }

  lemma {:induction false} CallKeeps(q: Watch, w: World, e: Expr, env: Env, st: Store, self: Option<Value>)
    requires e.Call? && env != [] && q.Covers(ExprOccs(e))
    ensures q.AllKept(env, EvalExpr(w, e, env, st, self).env)
    decreases e, 1
  {
    if e.receiver.Some? {
      ExprKeeps(q, w, e.receiver.value, env, st, self);
      var a := EvalExpr(w, e.receiver.value, env, st, self);
      ExprsKeep(q, w, e.args, a.env, a.st, self);
      ChainAll(q, env, a.env, EvalExprs(w, e.args, a.env, a.st, self).env);
    } else {
      ExprsKeep(q, w, e.args, env, st, self);
    }
  }

  lemma {:induction false} PartsKeep(q: Watch, w: World, e: Expr, env: Env, st: Store, self: Option<Value>)
    requires !(e.Binary? || e.Conditional? || e.AssignExpr? || e.Call?) && env != [] && q.Covers(ExprOccs(e))
    ensures q.AllKept(env, EvalExpr(w, e, env, st, self).env)
    decreases e, 1
  {
    match e
    case Is(o, _, _) => ExprKeeps(q, w, o, env, st, self);
    case FieldAccess(t, _, _, _) => ExprKeeps(q, w, t, env, st, self);
    case RecordConstruct(_, _, _, args, _) => ExprsKeep(q, w, args, env, st, self);
    case RecordCopy(t, _, _, _) => ExprKeeps(q, w, t, env, st, self);
    case ConstructorCall(_, _, _, args, _) => ExprsKeep(q, w, args, env, st, self);
    case _ =>
  }

  lemma {:induction false} AssignKeeps(q: Watch, w: World, e: Expr, env: Env, st: Store, self: Option<Value>)
    requires e.AssignExpr? && env != [] && q.Covers(ExprOccs(e))
    ensures q.AllKept(env, EvalAssign(w, e, env, st, self).env)
    decreases e, 0
  {
    var t, v := e.target, e.rvalue;
    if t.Ref? {
      assert Put(t.name) in ExprOccs(e);
      ExprKeeps(q, w, v, env, st, self);
      var a := EvalExpr(w, v, env, st, self);
      if a.r.Val? && Lookup(a.env, t.name).Some? {
        UpdateKept(q, a.env, t.name, a.r.v);
        ChainAll(q, env, a.env, Update(a.env, t.name, a.r.v));
      }
    } else if t.FieldAccess? {
      assert ExprOccs(t) == ExprOccs(t.target);
      ExprKeeps(q, w, t.target, env, st, self);
      var a := EvalExpr(w, t.target, env, st, self);
      ExprKeeps(q, w, v, a.env, a.st, self);
      ChainAll(q, env, a.env, EvalExpr(w, v, a.env, a.st, self).env);
    }
  }

  lemma {:induction false} ExprsKeep(q: Watch, w: World, es: seq<Expr>, env: Env, st: Store, self: Option<Value>)
    requires env != [] && q.Covers(ExprsOccs(es))
    ensures q.AllKept(env, EvalExprs(w, es, env, st, self).env)
    decreases es, 0
  {
    if es != [] {
      ExprKeeps(q, w, es[0], env, st, self);
      var a := EvalExpr(w, es[0], env, st, self);
      ExprsKeep(q, w, es[1..], a.env, a.st, self);
      ChainAll(q, env, a.env, EvalExprs(w, es[1..], a.env, a.st, self).env);
    }
  }

  // ----- statements -----

  ghost predicate StmtOk(q: Watch, mayReturn: bool, env: Env, r: Res) {
    q.Kept(env, r.env) && (r.out.Returned? ==> mayReturn)
  }

  lemma {:induction false} StmtsKeep(q: Watch, w: World, fuel: nat, ss: seq<Stmt>, env: Env, st: Store,
                                     self: Option<Value>)
    requires env != [] && q.Covers(StmtsOccs(ss))
    ensures StmtOk(q, Returns(ss), env, ExecStmts(w, fuel, ss, env, st, self))
    decreases fuel, ss, 0
  {
    if ss != [] {
      StmtKeeps(q, w, fuel, ss[0], env, st, self);
      var a := ExecStmt(w, fuel, ss[0], env, st, self);
      StmtsKeep(q, w, fuel, ss[1..], a.env, a.st, self);
      Chain(q, env, a.env, ExecStmts(w, fuel, ss[1..], a.env, a.st, self).env);
    }
  }

  lemma {:induction false} BlockKeeps(q: Watch, w: World, fuel: nat, ss: seq<Stmt>, frame: Frame, env: Env, st: Store,
                                      self: Option<Value>)
    requires env != [] && q.Covers(StmtsOccs(ss))
    ensures var r := ExecBlock(w, fuel, ss, frame, env, st, self);
            q.AllKept(env, r.env) && StmtOk(q, Returns(ss), env, r)
    decreases fuel, ss, 1
  {
    StmtsKeep(q, w, fuel, ss, [frame] + env, st, self);
    PopKept(q, frame, env, ExecStmts(w, fuel, ss, [frame] + env, st, self).env);
    Weaken(q, env, ExecBlock(w, fuel, ss, frame, env, st, self).env);
  }

  lemma {:induction false} StmtKeeps(q: Watch, w: World, fuel: nat, s: Stmt, env: Env, st: Store, self: Option<Value>)
    requires env != [] && q.Covers(StmtOccs(s))
    ensures StmtOk(q, StmtReturns(s), env, ExecStmt(w, fuel, s, env, st, self))
    decreases fuel, s, 6
  {
    match s
    case Return(e) => if e.Some? { ExprKeeps(q, w, e.value, env, st, self); }
    case VarDecl(_, _, _) => BindingKeeps(q, w, fuel, s, env, st, self);
    case Assign(_, _) => AssignStmtKeeps(q, w, fuel, s, env, st, self);
    case FieldAssign(_, _, _) => FieldAssignKeeps(q, w, fuel, s, env, st, self);
    case ExprStmt(e) => ExprKeeps(q, w, e, env, st, self);
    case Throw(e) => ExprKeeps(q, w, e, env, st, self);
    case _ => ControlKeeps(q, w, fuel, s, env, st, self);
  }

  lemma {:induction false} BindingKeeps(q: Watch, w: World, fuel: nat, s: Stmt, env: Env, st: Store,
                                        self: Option<Value>)
    requires s.VarDecl?
    requires env != [] && q.Covers(StmtOccs(s))
    ensures StmtOk(q, StmtReturns(s), env, ExecStmt(w, fuel, s, env, st, self))
  {
    assert Decl(s.name) in StmtOccs(s);
    if s.init.Some? {
      ExprKeeps(q, w, s.init.value, env, st, self);
      Weaken(q, env, EvalExpr(w, s.init.value, env, st, self).env);
    }
  }

  lemma {:induction false} AssignStmtKeeps(q: Watch, w: World, fuel: nat, s: Stmt, env: Env, st: Store,
                                           self: Option<Value>)
    requires s.Assign?
    requires env != [] && q.Covers(StmtOccs(s))
    ensures StmtOk(q, StmtReturns(s), env, ExecStmt(w, fuel, s, env, st, self))
  {
    assert Put(s.name) in StmtOccs(s);
    ExprKeeps(q, w, s.value, env, st, self);
    var a := EvalExpr(w, s.value, env, st, self);
    if a.r.Val? && Lookup(a.env, s.name).Some? {
      UpdateKept(q, a.env, s.name, a.r.v);
      ChainAll(q, env, a.env, Update(a.env, s.name, a.r.v));
    }
  }

  lemma {:induction false} FieldAssignKeeps(q: Watch, w: World, fuel: nat, s: Stmt, env: Env, st: Store,
                                            self: Option<Value>)
    requires s.FieldAssign?
    requires env != [] && q.Covers(StmtOccs(s))
    ensures StmtOk(q, StmtReturns(s), env, ExecStmt(w, fuel, s, env, st, self))
  {
    ExprKeeps(q, w, s.target, env, st, self);
    var a := EvalExpr(w, s.target, env, st, self);
    ExprKeeps(q, w, s.value, a.env, a.st, self);
    ChainAll(q, env, a.env, EvalExpr(w, s.value, a.env, a.st, self).env);
  }

  lemma {:induction false} ControlKeeps(q: Watch, w: World, fuel: nat, s: Stmt, env: Env, st: Store,
                                        self: Option<Value>)
    requires !(s.Return? || s.VarDecl? || s.Assign? || s.FieldAssign? || s.ExprStmt? || s.Throw?)
    requires env != [] && q.Covers(StmtOccs(s))
    ensures StmtOk(q, StmtReturns(s), env, ExecStmt(w, fuel, s, env, st, self))
    decreases fuel, s, 5
  {
    if s.While? {
      WhileKeeps(q, w, fuel, s, env, st, self);
    } else if s.DoWhile? {
      DoWhileKeeps(q, w, fuel, s, env, st, self);
    } else if s.For? {
      ForStmtKeeps(q, w, fuel, s, env, st, self);
    } else if s.Switch? {
      SwitchKeeps(q, w, fuel, s, env, st, self);
    } else if s.If? || s.ForEach? {
      BranchKeeps(q, w, fuel, s, env, st, self);
    } else if s.TryCatch? || s.TryFinally? {
      TryKeeps(q, w, fuel, s, env, st, self);
    }
  }

  lemma {:induction false} BranchKeeps(q: Watch, w: World, fuel: nat, s: Stmt, env: Env, st: Store, self: Option<Value>)
    requires (s.If? || s.ForEach?) && env != [] && q.Covers(StmtOccs(s))
    ensures StmtOk(q, StmtReturns(s), env, ExecStmt(w, fuel, s, env, st, self))
    decreases fuel, s, 4
  {
    match s
    case If(c, t, f) =>
      ExprKeeps(q, w, c, env, st, self);
      var a := EvalExpr(w, c, env, st, self);
      Weaken(q, env, a.env);
      BlockKeeps(q, w, fuel, t, map[], a.env, a.st, self);
      BlockKeeps(q, w, fuel, f, map[], a.env, a.st, self);
      Chain(q, env, a.env, ExecBlock(w, fuel, t, map[], a.env, a.st, self).env);
      Chain(q, env, a.env, ExecBlock(w, fuel, f, map[], a.env, a.st, self).env);
    case ForEach(_, _, e, _) =>
      ExprKeeps(q, w, e, env, st, self);
      var a := EvalExpr(w, e, env, st, self);
      Weaken(q, env, a.env);
      if a.r.Val? && a.r.v.ListV? {
        ForEachKeeps(q, w, fuel, s, a.r.v.items, a.env, a.st, self);
        Chain(q, env, a.env, ExecForEach(w, fuel, s, a.r.v.items, a.env, a.st, self).env);
      }
  }

  lemma {:induction false} TryKeeps(q: Watch, w: World, fuel: nat, s: Stmt, env: Env, st: Store, self: Option<Value>)
    requires (s.TryCatch? || s.TryFinally?) && env != [] && q.Covers(StmtOccs(s))
    ensures StmtOk(q, StmtReturns(s), env, ExecStmt(w, fuel, s, env, st, self))
    decreases fuel, s, 4
  {
    BlockKeeps(q, w, fuel, s.tryBody, map[], env, st, self);
    var r := ExecBlock(w, fuel, s.tryBody, map[], env, st, self);
    match s
    case TryCatch(_, _, n, c) =>
      if r.out.Threw? {
        BlockKeeps(q, w, fuel, c, map[n := r.out.value], r.env, r.st, self);
        Chain(q, env, r.env, ExecBlock(w, fuel, c, map[n := r.out.value], r.env, r.st, self).env);
      }
    case TryFinally(_, f) =>
      BlockKeeps(q, w, fuel, f, map[], r.env, r.st, self);
      Chain(q, env, r.env, ExecBlock(w, fuel, f, map[], r.env, r.st, self).env);
  }

  lemma {:induction false} WhileKeeps(q: Watch, w: World, fuel: nat, s: Stmt, env: Env, st: Store, self: Option<Value>)
    requires s.While? && env != [] && q.Covers(StmtOccs(s))
    ensures StmtOk(q, StmtReturns(s), env, ExecWhile(w, fuel, s, env, st, self))
    decreases fuel, s, 0
  {
    ExprKeeps(q, w, s.condition, env, st, self);
    var c := EvalExpr(w, s.condition, env, st, self);
    Weaken(q, env, c.env);
    if c.r == Val(BoolV(true)) && fuel > 0 {
      BlockKeeps(q, w, fuel, s.body, map[], c.env, c.st, self);
      var r := ExecBlock(w, fuel, s.body, map[], c.env, c.st, self);
      Chain(q, env, c.env, r.env);
      WhileKeeps(q, w, fuel - 1, s, r.env, r.st, self);
      Chain(q, env, r.env, ExecWhile(w, fuel - 1, s, r.env, r.st, self).env);
    }
  }

  lemma {:induction false} DoWhileKeeps(q: Watch, w: World, fuel: nat, s: Stmt, env: Env, st: Store,
                                        self: Option<Value>)
    requires s.DoWhile? && env != [] && q.Covers(StmtOccs(s))
    ensures StmtOk(q, StmtReturns(s), env, ExecDoWhile(w, fuel, s, env, st, self))
    decreases fuel, s, 0
  {
    if fuel > 0 {
      BlockKeeps(q, w, fuel, s.body, map[], env, st, self);
      var r := ExecBlock(w, fuel, s.body, map[], env, st, self);
      ExprKeeps(q, w, s.condition, r.env, r.st, self);
      var c := EvalExpr(w, s.condition, r.env, r.st, self);
      Weaken(q, r.env, c.env);
      Chain(q, env, r.env, c.env);
      DoWhileKeeps(q, w, fuel - 1, s, c.env, c.st, self);
      Chain(q, env, c.env, ExecDoWhile(w, fuel - 1, s, c.env, c.st, self).env);
    }
  }

  lemma {:induction false} ForStmtKeeps(q: Watch, w: World, fuel: nat, s: Stmt, env: Env, st: Store,
                                        self: Option<Value>)
    requires s.For? && env != [] && q.Covers(StmtOccs(s))
    ensures StmtOk(q, StmtReturns(s), env, ExecStmt(w, fuel, s, env, st, self))
    decreases fuel, s, 1
  {
    var inner := [map[]] + env;
    var r := Res(inner, st, Normal);
    if s.start.Some? {
      StmtKeeps(q, w, fuel, s.start.value, inner, st, self);
      r := ExecStmt(w, fuel, s.start.value, inner, st, self);
    }
    if r.out.Normal? {
      ForKeeps(q, w, fuel, s, r.env, r.st, self);
      var loop := ExecFor(w, fuel, s, r.env, r.st, self);
      Chain(q, inner, r.env, loop.env);
      PopKept(q, map[], env, loop.env);
      Weaken(q, env, Pop(loop.env));
    } else {
      PopKept(q, map[], env, r.env);
      Weaken(q, env, Pop(r.env));
    }
  }

  lemma {:induction false} IncrementKeeps(q: Watch, w: World, fuel: nat, s: Stmt, env: Env, st: Store,
                                          self: Option<Value>)
    requires s.For? && env != [] && q.Covers(StmtOccs(s))
    ensures StmtOk(q, StmtReturns(s), env, ExecIncrement(w, fuel, s, env, st, self))
    decreases fuel, s, 0, 0
  {
    if s.increment.Some? {
      assert forall o | o in StmtOccs(s.increment.value) :: o in StmtOccs(s);
      StmtKeeps(q, w, fuel, s.increment.value, env, st, self);
    } else {
      assert q.Kept(env, env);
    }
  }

  lemma TestKeeps(q: Watch, w: World, s: Stmt, env: Env, st: Store, self: Option<Value>) returns (c: ERes)
    requires s.For? && env != [] && q.Covers(StmtOccs(s))
    ensures c == if s.test.Some? then EvalExpr(w, s.test.value, env, st, self) else ERes(env, st, Val(BoolV(true)))
    ensures q.Kept(env, c.env)
  {
    c := ERes(env, st, Val(BoolV(true)));
    if s.test.Some? {
      assert forall o | o in ExprOccs(s.test.value) :: o in StmtOccs(s);
      ExprKeeps(q, w, s.test.value, env, st, self);
      c := EvalExpr(w, s.test.value, env, st, self);
      Weaken(q, env, c.env);
    }
  }

  lemma {:induction false} ForKeeps(q: Watch, w: World, fuel: nat, s: Stmt, env: Env, st: Store, self: Option<Value>)
    requires s.For? && env != [] && q.Covers(StmtOccs(s))
    ensures StmtOk(q, StmtReturns(s), env, ExecFor(w, fuel, s, env, st, self))
    decreases fuel, s, 0, 1
  {
    var c := TestKeeps(q, w, s, env, st, self);
    if c.r == Val(BoolV(true)) && fuel > 0 {
      BlockKeeps(q, w, fuel, s.body, map[], c.env, c.st, self);
      var r := ExecBlock(w, fuel, s.body, map[], c.env, c.st, self);
      Chain(q, env, c.env, r.env);
      if !r.out.Broke? && !Leaves(r.out) {
        IncrementKeeps(q, w, fuel, s, r.env, r.st, self);
        var i := ExecIncrement(w, fuel, s, r.env, r.st, self);
        Chain(q, env, r.env, i.env);
        if i.out.Normal? {
          ForKeeps(q, w, fuel - 1, s, i.env, i.st, self);
          Chain(q, env, i.env, ExecFor(w, fuel - 1, s, i.env, i.st, self).env);
        }
      }
    }
  }

  lemma {:induction false} ForEachKeeps(q: Watch, w: World, fuel: nat, s: Stmt, items: seq<Value>,
                                        env: Env, st: Store, self: Option<Value>)
    requires s.ForEach? && env != [] && q.Covers(StmtOccs(s))
    ensures StmtOk(q, StmtReturns(s), env, ExecForEach(w, fuel, s, items, env, st, self))
    decreases fuel, s, 0, |items|
  {
    if items != [] {
      BlockKeeps(q, w, fuel, s.body, map[s.name := items[0]], env, st, self);
      var r := ExecBlock(w, fuel, s.body, map[s.name := items[0]], env, st, self);
      ForEachKeeps(q, w, fuel, s, items[1..], r.env, r.st, self);
      Chain(q, env, r.env, ExecForEach(w, fuel, s, items[1..], r.env, r.st, self).env);
    }
  }

  lemma {:induction false} SwitchKeeps(q: Watch, w: World, fuel: nat, s: Stmt, env: Env, st: Store, self: Option<Value>)
    requires s.Switch? && env != [] && q.Covers(StmtOccs(s))
    ensures StmtOk(q, StmtReturns(s), env, ExecStmt(w, fuel, s, env, st, self))
    decreases fuel, s, 2
  {
    ExprKeeps(q, w, s.scrutinee, env, st, self);
    var a := EvalExpr(w, s.scrutinee, env, st, self);
    Weaken(q, env, a.env);
    if a.r.Val? {
      SelectKeeps(q, w, s.cases, a.r.v, a.env, a.st, self);
      var k := SelectCase(w, s.cases, a.r.v, a.env, a.st, self);
      Weaken(q, a.env, k.env);
      Chain(q, env, a.env, k.env);
      if k.failed.None? {
        CaseKeeps(q, w, fuel, s, k.index, k.env, k.st, self);
        Chain(q, env, k.env, ExecCase(w, fuel, s, k.index, k.env, k.st, self).env);
      }
    }
  }

  lemma {:induction false} SelectKeeps(q: Watch, w: World, cases: seq<SwitchCase>, v: Value, env: Env, st: Store,
                                       self: Option<Value>)
    requires env != [] && q.Covers(CasesOccs(cases))
    ensures q.AllKept(env, SelectCase(w, cases, v, env, st, self).env)
    decreases cases
  {
    if cases != [] {
      ExprsKeep(q, w, cases[0].values, env, st, self);
      var a := EvalExprs(w, cases[0].values, env, st, self);
      SelectKeeps(q, w, cases[1..], v, a.env, a.st, self);
      ChainAll(q, env, a.env, SelectCase(w, cases[1..], v, a.env, a.st, self).env);
    }
  }

  lemma {:induction false} CaseCovered(q: Watch, cases: seq<SwitchCase>, k: nat)
    requires k < |cases| && q.Covers(CasesOccs(cases))
    ensures q.Covers(StmtsOccs(cases[k].body))
    ensures Returns(cases[k].body) ==> CasesReturn(cases)
  {
    if k > 0 { CaseCovered(q, cases[1..], k - 1); }
  }

  lemma {:induction false} CaseKeeps(q: Watch, w: World, fuel: nat, s: Stmt, index: nat, env: Env, st: Store,
                                     self: Option<Value>)
    requires s.Switch? && env != [] && q.Covers(StmtOccs(s))
    ensures StmtOk(q, StmtReturns(s), env, ExecCase(w, fuel, s, index, env, st, self))
    decreases fuel, s, 0
  {
    if index < |s.cases| {
      CaseCovered(q, s.cases, index);
      BlockKeeps(q, w, fuel, s.cases[index].body, map[], env, st, self);
    } else if s.hasDefault {
      BlockKeeps(q, w, fuel, s.default, map[], env, st, self);
    }
    var r := ExecCaseBody(w, fuel, s, index, env, st, self);
    if r.out.Jumped? {
      var target := LabelIndex(s.cases, r.out.tag);
      if target.Some? && fuel > 0 {
        CaseKeeps(q, w, fuel - 1, s, target.value, r.env, r.st, self);
        Chain(q, env, r.env, ExecCase(w, fuel - 1, s, target.value, r.env, r.st, self).env);
      }
    }
  }
}
