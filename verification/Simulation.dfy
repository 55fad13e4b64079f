/**
 Two runs of the interpreter that cannot tell their frames apart.

 The first run executes a body in the frames `E1`; the second executes it in
 `E2`, possibly after `this` has been replaced by a local that holds the same
 object.  As long as both stacks answer every name the body mentions alike, the
 runs make the same events, the same store and the same outcome.
 */
module Simulation {
  import opened Wrappers
  import opened Ir
  import opened Occurrences
  import opened Interp
  import opened Raii

  /** `used`: the names the body may mention.  `guard`: the local that stands for
      `this` in the second run, if any; `bound`: whether that local is really there. */
  datatype Pairing = Pairing(used: set<string>, guard: Option<string>, bound: bool,
                             self1: Option<Value>, self2: Option<Value>)
  {
    ghost predicate Valid() {
      match guard
      case None => self1 == self2
      case Some(x) => x !in used && self1.Some?
    }

    ghost predicate Fits(os: seq<Occ>) {
      forall o | o in os :: FitsOne(o)
    }

    ghost predicate FitsOne(o: Occ) {
      match o
      case Use(n) => n in used
      case Put(n) => n in used
      case Decl(n) => guard != Some(n)
      case Self => guard.Some? ==> bound
      case PutSelf => guard.None?
      case InDefault(inner) => FitsDefault(inner)
    }

    ghost predicate FitsDefault(o: Occ) {
      match o
      case Use(n) => n in used
      case Put(n) => n in used
      case Decl(n) => true
      case Self => guard.None?
      case PutSelf => guard.None?
      case InDefault(inner) => FitsDefault(inner)
    }

    /** The frames below the first `d`, which the two runs share. */
    ghost predicate Base(e1: Env, e2: Env) {
      && e1 != [] && e2 != []
      && (forall n | n in used :: Lookup(e1, n) == Lookup(e2, n))
      && (guard.Some? && bound ==> Lookup(e2, guard.value) == self1)
    }

    ghost predicate Rel(e1: Env, e2: Env, d: nat) {
      if d == 0 then Base(e1, e2)
      else
        && e1 != [] && e2 != [] && e1[0] == e2[0]
        && (guard.Some? ==> guard.value !in e1[0])
        && Rel(e1[1..], e2[1..], d - 1)
    }

    ghost predicate Same(r1: Res, r2: Res, d: nat) {
      r1.st == r2.st && r1.out == r2.out && Rel(r1.env, r2.env, d)
    }

    ghost predicate SameE(r1: ERes, r2: ERes, d: nat) {
      r1.st == r2.st && r1.r == r2.r && Rel(r1.env, r2.env, d)
    }

    function E(e: Expr): Expr { if guard.Some? then ReplaceExpr(e, guard.value) else e }
    function Es(es: seq<Expr>): seq<Expr> { if guard.Some? then ReplaceExprs(es, guard.value) else es }
    function S(s: Stmt): Stmt { if guard.Some? then ReplaceStmt(s, guard.value) else s }
    function Ss(ss: seq<Stmt>): seq<Stmt> { if guard.Some? then ReplaceStmts(ss, guard.value) else ss }
    function OptE(e: Option<Expr>): Option<Expr> { if e.Some? then Some(E(e.value)) else None }
    function OptS(s: Option<Stmt>): Option<Stmt> { if s.Some? then Some(S(s.value)) else None }
    function Cs(cs: seq<SwitchCase>): seq<SwitchCase> { if guard.Some? then ReplaceCases(cs, guard.value) else cs }
  }

  // ----- frames -----

  lemma LookupUpdate(e: Env, n: string, v: Value, m: string)
    ensures Lookup(Update(e, n, v), m) == if m == n && Lookup(e, n).Some? then Some(v) else Lookup(e, m)
    ensures (Update(e, n, v) == []) == (e == [])
  {
    if e != [] && n !in e[0] {
      LookupUpdate(e[1..], n, v, m);
    }
  }

  lemma RelLookup(p: Pairing, e1: Env, e2: Env, d: nat, n: string)
    requires p.Rel(e1, e2, d)
    ensures n in p.used ==> Lookup(e1, n) == Lookup(e2, n)
    ensures p.guard == Some(n) && p.bound ==> Lookup(e2, n) == p.self1
  {
    if d > 0 { RelLookup(p, e1[1..], e2[1..], d - 1, n); }
  }

  lemma RelUpdate(p: Pairing, e1: Env, e2: Env, d: nat, n: string, v: Value)
    requires p.Valid() && p.Rel(e1, e2, d) && n in p.used
    ensures p.Rel(Update(e1, n, v), Update(e2, n, v), d)
  {
    if d == 0 {
      forall m ensures Lookup(Update(e1, n, v), m) == (if m == n && Lookup(e1, n).Some? then Some(v) else Lookup(e1, m))
               ensures Lookup(Update(e2, n, v), m) == (if m == n && Lookup(e2, n).Some? then Some(v) else Lookup(e2, m))
               ensures Update(e1, n, v) != [] && Update(e2, n, v) != [] {
        LookupUpdate(e1, n, v, m);
        LookupUpdate(e2, n, v, m);
      }
      LookupUpdate(e1, n, v, n);
      LookupUpdate(e2, n, v, n);
    } else if n !in e1[0] {
      RelUpdate(p, e1[1..], e2[1..], d - 1, n, v);
      assert ([e1[0]] + Update(e1[1..], n, v))[1..] == Update(e1[1..], n, v);
      assert ([e2[0]] + Update(e2[1..], n, v))[1..] == Update(e2[1..], n, v);
    } else {
      assert ([e1[0][n := v]] + e1[1..])[1..] == e1[1..];
      assert ([e2[0][n := v]] + e2[1..])[1..] == e2[1..];
    }
  }

  lemma LookupDeclare(e: Env, n: string, v: Value, m: string)
    ensures Lookup(Declare(e, n, v), m) == if m == n then Some(v) else Lookup(e, m)
  {
    if e != [] { assert Declare(e, n, v)[1..] == e[1..]; }
  }

  lemma RelDeclare(p: Pairing, e1: Env, e2: Env, d: nat, n: string, v: Value)
    requires p.Valid() && p.Rel(e1, e2, d) && p.guard != Some(n)
    ensures p.Rel(Declare(e1, n, v), Declare(e2, n, v), d)
  {
    if d == 0 {
      forall m ensures Lookup(Declare(e1, n, v), m) == (if m == n then Some(v) else Lookup(e1, m))
               ensures Lookup(Declare(e2, n, v), m) == (if m == n then Some(v) else Lookup(e2, m)) {
        LookupDeclare(e1, n, v, m);
        LookupDeclare(e2, n, v, m);
      }
    } else {
      assert Declare(e1, n, v)[1..] == e1[1..];
      assert Declare(e2, n, v)[1..] == e2[1..];
    }
  }

  lemma RelPush(p: Pairing, e1: Env, e2: Env, d: nat, f: Frame)
    requires p.Rel(e1, e2, d) && (p.guard.Some? ==> p.guard.value !in f)
    ensures p.Rel([f] + e1, [f] + e2, d + 1)
  {
    assert ([f] + e1)[1..] == e1;
    assert ([f] + e2)[1..] == e2;
  }

  lemma RelWrite(p: Pairing, e1: Env, e2: Env, d: nat, st: Store, n: string, v: Value)
    requires p.Valid() && p.Rel(e1, e2, d) && n in p.used
    ensures p.SameE(Write(e1, st, n, v), Write(e2, st, n, v), d)
  {
    RelLookup(p, e1, e2, d, n);
    RelUpdate(p, e1, e2, d, n, v);
  }

  // ----- closures -----

  lemma FitsAppend(p: Pairing, a: seq<Occ>, b: seq<Occ>)
    ensures p.Fits(a + b) <==> p.Fits(a) && p.Fits(b)
  {
    if p.Fits(a + b) {
      forall o | o in a ensures p.FitsOne(o) { assert o in a + b; }
      forall o | o in b ensures p.FitsOne(o) { assert o in a + b; }
    }
  }

  lemma SimCaptureDefault(p: Pairing, o: Occ, bound: set<string>, e1: Env, e2: Env, d: nat)
    requires p.Valid() && p.Rel(e1, e2, d) && p.FitsDefault(o)
    ensures CaptureOne(o, bound, e1, p.self1) == CaptureOne(o, bound, e2, p.self2)
  {
    match o
    case Use(n) => RelLookup(p, e1, e2, d, n);
    case Put(n) => RelLookup(p, e1, e2, d, n);
    case InDefault(inner) => SimCaptureDefault(p, inner, bound, e1, e2, d);
    case _ =>
  }

  /** Replacing `this` by the guard captures the same values in the same order. */
  lemma {:induction false} SimCapture(p: Pairing, os: seq<Occ>, bound: set<string>, e1: Env, e2: Env, d: nat)
    requires p.Valid() && p.Rel(e1, e2, d) && p.Fits(os)
    requires p.guard.Some? ==> p.guard.value !in bound
    ensures Capture(os, bound, e1, p.self1)
         == Capture(if p.guard.Some? then Renamed(os, p.guard.value) else os, bound, e2, p.self2)
  {
    if os != [] {
      var o := os[0];
      assert p.FitsOne(o);
      match o {
        case Use(n) => RelLookup(p, e1, e2, d, n);
        case Put(n) => RelLookup(p, e1, e2, d, n);
        case Self => if p.guard.Some? { RelLookup(p, e1, e2, d, p.guard.value); }
        case InDefault(inner) => SimCaptureDefault(p, inner, bound, e1, e2, d);
        case _ =>
      }
      SimCapture(p, os[1..], bound, e1, e2, d);
      if p.guard.Some? {
        assert Renamed(os, p.guard.value)[1..] == Renamed(os[1..], p.guard.value);
      }
    }
  }

  lemma RenamedDeclares(os: seq<Occ>, x: string)
    ensures DeclaredNames(Renamed(os, x)) == DeclaredNames(os)
  {
    forall o: Occ ensures o.Decl? ==> (o in Renamed(os, x) <==> o in os) { if o.Decl? { RenamedKeepsDecl(os, x, o); } }
    assert forall n :: n in DeclaredNames(os) <==> Decl(n) in os;
    assert forall n :: n in DeclaredNames(Renamed(os, x)) <==> Decl(n) in Renamed(os, x);
  }

  lemma RenamedKeepsDecl(os: seq<Occ>, x: string, o: Occ)
    requires o.Decl?
    ensures o in Renamed(os, x) <==> o in os
  {
    if os != [] { RenamedKeepsDecl(os[1..], x, o); }
  }

  /** Renaming `this` to a name that does not occur keeps first occurrences first. */
  lemma {:induction false} FirstsRenamed(os: seq<Occ>, x: string, seen: set<Occ>, renamed: set<Occ>)
    requires Use(x) !in os && Put(x) !in os
    requires forall o | o in os :: RenamedOne(o, x) in renamed <==> o in seen
    ensures Firsts(Renamed(os, x), renamed) == Renamed(Firsts(os, seen), x)
    decreases |os|
  {
    if os != [] {
      var o := os[0];
      assert Renamed(os, x) == [RenamedOne(o, x)] + Renamed(os[1..], x);
      if o in seen {
        FirstsRenamed(os[1..], x, seen, renamed);
      } else {
        FirstsRenamed(os[1..], x, seen + {o}, renamed + {RenamedOne(o, x)});
        assert Firsts(os, seen)[1..] == Firsts(os[1..], seen + {o});
      }
    }
  }

  lemma SimLambda(p: Pairing, e: Expr, e1: Env, e2: Env, d: nat)
    requires e.Lambda? && p.Valid() && p.Rel(e1, e2, d) && p.Fits(ExprOccs(e))
    ensures Closure(e.params, e.body, e.origin, e1, p.self1) == Closure(e.params, p.Ss(e.body), e.origin, e2, p.self2)
  {
    var os := ParamOccs(e.params) + StmtsOccs(e.body);
    if p.guard.Some? {
      var x := p.guard.value;
      ReplaceStmtsOccs(e.body, x);
      ParamsUntouched(e.params, x);
      RenamedAppend(ParamOccs(e.params), StmtsOccs(e.body), x);
      RenamedDeclares(os, x);
      assert x !in DeclaredNames(os) by { assert p.Fits(os); assert Decl(x) in os ==> p.FitsOne(Decl(x)); }
    }
    if p.guard.Some? {
      assert !p.FitsOne(Use(p.guard.value)) && !p.FitsOne(Put(p.guard.value));
      FirstsRenamed(os, p.guard.value, {}, {});
    }
    assert p.Fits(Firsts(os, {}));
    SimCapture(p, Firsts(os, {}), DeclaredNames(os), e1, e2, d);
  }

  // ----- expressions -----

  lemma {:induction false} SimExpr(p: Pairing, w: World, e: Expr, e1: Env, e2: Env, d: nat, st: Store)
    requires p.Valid() && p.Rel(e1, e2, d) && p.Fits(ExprOccs(e))
    ensures p.SameE(EvalExpr(w, e, e1, st, p.self1), EvalExpr(w, p.E(e), e2, st, p.self2), d)
    decreases e, 2
  {
    if e.Ref? || e.This? || e.Lambda? {
      SimLeaf(p, w, e, e1, e2, d, st);
    } else if e.Binary? {
      SimBinary(p, w, e, e1, e2, d, st);
    } else if e.Conditional? {
      SimConditional(p, w, e, e1, e2, d, st);
    } else if e.AssignExpr? {
      SimAssign(p, w, e, e1, e2, d, st);
    } else if e.Call? {
      SimCall(p, w, e, e1, e2, d, st);
    } else {
      SimParts(p, w, e, e1, e2, d, st);
    }
  }

  lemma SimLeaf(p: Pairing, w: World, e: Expr, e1: Env, e2: Env, d: nat, st: Store)
    requires e.Ref? || e.This? || e.Lambda?
    requires p.Valid() && p.Rel(e1, e2, d) && p.Fits(ExprOccs(e))
    ensures p.SameE(EvalExpr(w, e, e1, st, p.self1), EvalExpr(w, p.E(e), e2, st, p.self2), d)
  {
    match e
    case Ref(n, _, _) => assert p.FitsOne(Use(n)); RelLookup(p, e1, e2, d, n);
    case This(_, _) =>
      assert p.FitsOne(Self);
      if p.guard.Some? { RelLookup(p, e1, e2, d, p.guard.value); }
    case Lambda(_, _, _, _) => SimLambda(p, e, e1, e2, d);
  }

  lemma {:induction false} SimParts(p: Pairing, w: World, e: Expr, e1: Env, e2: Env, d: nat, st: Store)
    requires !(e.Ref? || e.This? || e.Lambda? || e.Binary? || e.Conditional? || e.AssignExpr? || e.Call?)
    requires p.Valid() && p.Rel(e1, e2, d) && p.Fits(ExprOccs(e))
    ensures p.SameE(EvalExpr(w, e, e1, st, p.self1), EvalExpr(w, p.E(e), e2, st, p.self2), d)
    decreases e, 1
  {
    match e
    case Is(o, _, _) => SimExpr(p, w, o, e1, e2, d, st);
    case FieldAccess(t, _, _, _) => SimExpr(p, w, t, e1, e2, d, st);
    case RecordConstruct(_, _, _, args, _) => SimExprs(p, w, args, e1, e2, d, st);
    case RecordCopy(t, _, _, _) => SimExpr(p, w, t, e1, e2, d, st);
    case ConstructorCall(_, _, _, args, _) => SimExprs(p, w, args, e1, e2, d, st);
    case _ =>
  }

  lemma {:induction false} SimCall(p: Pairing, w: World, e: Expr, e1: Env, e2: Env, d: nat, st: Store)
    requires e.Call? && p.Valid() && p.Rel(e1, e2, d) && p.Fits(ExprOccs(e))
    ensures p.SameE(EvalExpr(w, e, e1, st, p.self1), EvalExpr(w, p.E(e), e2, st, p.self2), d)
    decreases e, 0
  {
    var receiver, args := e.receiver, e.args;
    FitsAppend(p, if receiver.Some? then ExprOccs(receiver.value) else [], ExprsOccs(args));
    if receiver.Some? {
      SimExpr(p, w, receiver.value, e1, e2, d, st);
      var r1 := EvalExpr(w, receiver.value, e1, st, p.self1);
      var r2 := EvalExpr(w, p.E(receiver.value), e2, st, p.self2);
      SimExprs(p, w, args, r1.env, r2.env, d, r1.st);
    } else {
      SimExprs(p, w, args, e1, e2, d, st);
    }
  }

  lemma {:induction false} SimConditional(p: Pairing, w: World, e: Expr, e1: Env, e2: Env, d: nat, st: Store)
    requires e.Conditional? && p.Valid() && p.Rel(e1, e2, d) && p.Fits(ExprOccs(e))
    ensures p.SameE(EvalExpr(w, e, e1, st, p.self1), EvalExpr(w, p.E(e), e2, st, p.self2), d)
    decreases e, 0
  {
    var c, t, f := e.condition, e.thenExpr, e.elseExpr;
    FitsAppend(p, ExprOccs(c), ExprOccs(t));
    FitsAppend(p, ExprOccs(c) + ExprOccs(t), ExprOccs(f));
    SimExpr(p, w, c, e1, e2, d, st);
    var c1, c2 := EvalExpr(w, c, e1, st, p.self1), EvalExpr(w, p.E(c), e2, st, p.self2);
    SimExpr(p, w, t, c1.env, c2.env, d, c1.st);
    SimExpr(p, w, f, c1.env, c2.env, d, c1.st);
  }

  lemma {:induction false} SimBinary(p: Pairing, w: World, e: Expr, e1: Env, e2: Env, d: nat, st: Store)
    requires e.Binary? && p.Valid() && p.Rel(e1, e2, d) && p.Fits(ExprOccs(e))
    ensures p.SameE(EvalExpr(w, e, e1, st, p.self1), EvalExpr(w, p.E(e), e2, st, p.self2), d)
    decreases e, 0
  {
    FitsAppend(p, ExprOccs(e.lhs), ExprOccs(e.rhs));
    SimExpr(p, w, e.lhs, e1, e2, d, st);
    var l1, l2 := EvalExpr(w, e.lhs, e1, st, p.self1), EvalExpr(w, p.E(e.lhs), e2, st, p.self2);
    SimExpr(p, w, e.rhs, l1.env, l2.env, d, l1.st);
  }

  lemma AssignParts(p: Pairing, e: Expr)
    requires e.AssignExpr? && p.Fits(ExprOccs(e))
    ensures p.Fits(ExprOccs(e.target)) && p.Fits(ExprOccs(e.rvalue))
    ensures e.target.Ref? ==> e.target.name in p.used
    ensures e.target.This? ==> p.guard.None?
    ensures p.E(e) == AssignExpr(p.E(e.target), p.E(e.rvalue), e.ty, e.origin)
  {
    var t, v := e.target, e.rvalue;
    var put := if t.Ref? then [Put(t.name)] else if t.This? then [PutSelf] else [];
    FitsAppend(p, ExprOccs(t), ExprOccs(v));
    FitsAppend(p, ExprOccs(t) + ExprOccs(v), put);
    if t.Ref? { assert p.FitsOne(put[0]); }
    if t.This? { assert p.FitsOne(put[0]); }
  }

  /** What kind of assignment target an expression is does not change, `this` apart. */
  lemma TargetKind(p: Pairing, t: Expr)
    requires t.This? ==> p.guard.None?
    ensures t.Ref? ==> p.E(t) == t
    ensures t.FieldAccess? ==> p.E(t) == FieldAccess(p.E(t.target), t.field, t.ty, t.origin)
    ensures !t.Ref? && !t.FieldAccess? ==> !p.E(t).Ref? && !p.E(t).FieldAccess?
  {
  }

  lemma {:induction false} SimAssign(p: Pairing, w: World, e: Expr, e1: Env, e2: Env, d: nat, st: Store)
    requires e.AssignExpr? && p.Valid() && p.Rel(e1, e2, d) && p.Fits(ExprOccs(e))
    ensures p.SameE(EvalAssign(w, e, e1, st, p.self1),
                    EvalAssign(w, AssignExpr(p.E(e.target), p.E(e.rvalue), e.ty, e.origin), e2, st, p.self2), d)
    ensures p.E(e) == AssignExpr(p.E(e.target), p.E(e.rvalue), e.ty, e.origin)
    decreases e, 0, 1
  {
    AssignParts(p, e);
    TargetKind(p, e.target);
    if e.target.Ref? {
      SimAssignName(p, w, e, e1, e2, d, st);
    } else if e.target.FieldAccess? {
      SimAssignField(p, w, e, e1, e2, d, st);
    }
  }

  lemma {:induction false} SimAssignName(p: Pairing, w: World, e: Expr, e1: Env, e2: Env, d: nat, st: Store)
    requires e.AssignExpr? && e.target.Ref? && p.Valid() && p.Rel(e1, e2, d)
    requires p.Fits(ExprOccs(e.rvalue)) && e.target.name in p.used
    requires p.E(e.target).Ref? && p.E(e.target).name == e.target.name
    ensures p.SameE(EvalAssign(w, e, e1, st, p.self1),
                    EvalAssign(w, AssignExpr(p.E(e.target), p.E(e.rvalue), e.ty, e.origin), e2, st, p.self2), d)
    decreases e, 0, 0
  {
    var v := e.rvalue;
    SimExpr(p, w, v, e1, e2, d, st);
    var v1, v2 := EvalExpr(w, v, e1, st, p.self1), EvalExpr(w, p.E(v), e2, st, p.self2);
    if v1.r.Val? { RelWrite(p, v1.env, v2.env, d, v1.st, e.target.name, v1.r.v); }
  }

  lemma {:induction false} SimAssignField(p: Pairing, w: World, e: Expr, e1: Env, e2: Env, d: nat, st: Store)
    requires e.AssignExpr? && e.target.FieldAccess? && p.Valid() && p.Rel(e1, e2, d)
    requires p.Fits(ExprOccs(e.target)) && p.Fits(ExprOccs(e.rvalue))
    requires p.E(e.target).FieldAccess? && p.E(e.target).target == p.E(e.target.target)
        && p.E(e.target).field == e.target.field
    ensures p.SameE(EvalAssign(w, e, e1, st, p.self1),
                    EvalAssign(w, AssignExpr(p.E(e.target), p.E(e.rvalue), e.ty, e.origin), e2, st, p.self2), d)
    decreases e, 0, 0
  {
    var t, v := e.target.target, e.rvalue;
    assert ExprOccs(e.target) == ExprOccs(t);
    SimExpr(p, w, t, e1, e2, d, st);
    var t1, t2 := EvalExpr(w, t, e1, st, p.self1), EvalExpr(w, p.E(t), e2, st, p.self2);
    SimExpr(p, w, v, t1.env, t2.env, d, t1.st);
  }

  lemma {:induction false} SimExprs(p: Pairing, w: World, es: seq<Expr>, e1: Env, e2: Env, d: nat, st: Store)
    requires p.Valid() && p.Rel(e1, e2, d) && p.Fits(ExprsOccs(es))
    ensures var r1, r2 := EvalExprs(w, es, e1, st, p.self1), EvalExprs(w, p.Es(es), e2, st, p.self2);
            r1.st == r2.st && r1.r == r2.r && p.Rel(r1.env, r2.env, d)
    decreases es, 0
  {
    if es != [] {
      FitsAppend(p, ExprOccs(es[0]), ExprsOccs(es[1..]));
      SimExpr(p, w, es[0], e1, e2, d, st);
      var h1, h2 := EvalExpr(w, es[0], e1, st, p.self1), EvalExpr(w, p.E(es[0]), e2, st, p.self2);
      SimExprs(p, w, es[1..], h1.env, h2.env, d, h1.st);
      assert p.guard.Some? ==> p.Es(es)[1..] == p.Es(es[1..]) && p.Es(es)[0] == p.E(es[0]);
    }
  }

  // ----- statements -----

  lemma {:induction false} SimStmts(p: Pairing, w: World, fuel: nat, ss: seq<Stmt>, e1: Env, e2: Env, d: nat, st: Store)
    requires p.Valid() && p.Rel(e1, e2, d) && p.Fits(StmtsOccs(ss))
    ensures p.Same(ExecStmts(w, fuel, ss, e1, st, p.self1), ExecStmts(w, fuel, p.Ss(ss), e2, st, p.self2), d)
    decreases fuel, ss, 0
  {
    if ss != [] {
      FitsAppend(p, StmtOccs(ss[0]), StmtsOccs(ss[1..]));
      SimStmt(p, w, fuel, ss[0], e1, e2, d, st);
      var r1, r2 := ExecStmt(w, fuel, ss[0], e1, st, p.self1), ExecStmt(w, fuel, p.S(ss[0]), e2, st, p.self2);
      SimStmts(p, w, fuel, ss[1..], r1.env, r2.env, d, r1.st);
      assert p.guard.Some? ==> p.Ss(ss)[1..] == p.Ss(ss[1..]) && p.Ss(ss)[0] == p.S(ss[0]);
    }
  }

  lemma {:induction false} SimBlock(p: Pairing, w: World, fuel: nat, ss: seq<Stmt>, frame: Frame, e1: Env, e2: Env,
                                    d: nat, st: Store)
    requires p.Valid() && p.Rel(e1, e2, d) && p.Fits(StmtsOccs(ss))
    requires p.guard.Some? ==> p.guard.value !in frame
    ensures p.Same(ExecBlock(w, fuel, ss, frame, e1, st, p.self1),
                   ExecBlock(w, fuel, p.Ss(ss), frame, e2, st, p.self2), d)
    decreases fuel, ss, 1
  {
    RelPush(p, e1, e2, d, frame);
    SimStmts(p, w, fuel, ss, [frame] + e1, [frame] + e2, d + 1, st);
  }

  lemma {:induction false} SimStmt(p: Pairing, w: World, fuel: nat, s: Stmt, e1: Env, e2: Env, d: nat, st: Store)
    requires p.Valid() && p.Rel(e1, e2, d) && p.Fits(StmtOccs(s))
    ensures p.Same(ExecStmt(w, fuel, s, e1, st, p.self1), ExecStmt(w, fuel, p.S(s), e2, st, p.self2), d)
    decreases fuel, s, 6
  {
    match s
    case Return(e) => if e.Some? { SimExpr(p, w, e.value, e1, e2, d, st); }
    case VarDecl(_, _, _) => SimBinding(p, w, fuel, s, e1, e2, d, st);
    case Assign(_, _) => SimBinding(p, w, fuel, s, e1, e2, d, st);
    case FieldAssign(_, _, _) => SimBinding(p, w, fuel, s, e1, e2, d, st);
    case ExprStmt(e) => SimExpr(p, w, e, e1, e2, d, st);
    case Throw(e) => SimExpr(p, w, e, e1, e2, d, st);
    case _ => SimControl(p, w, fuel, s, e1, e2, d, st);
  }

  lemma {:induction false} SimBinding(p: Pairing, w: World, fuel: nat, s: Stmt, e1: Env, e2: Env, d: nat, st: Store)
    requires s.VarDecl? || s.Assign? || s.FieldAssign?
    requires p.Valid() && p.Rel(e1, e2, d) && p.Fits(StmtOccs(s))
    ensures p.Same(ExecStmt(w, fuel, s, e1, st, p.self1), ExecStmt(w, fuel, p.S(s), e2, st, p.self2), d)
  {
    match s
    case VarDecl(_, _, _) => SimDeclaration(p, w, fuel, s, e1, e2, d, st);
    case Assign(n, e) =>
      FitsAppend(p, ExprOccs(e), [Put(n)]);
      assert p.FitsOne(Put(n));
      SimExpr(p, w, e, e1, e2, d, st);
      var v1, v2 := EvalExpr(w, e, e1, st, p.self1), EvalExpr(w, p.E(e), e2, st, p.self2);
      if v1.r.Val? { RelWrite(p, v1.env, v2.env, d, v1.st, n, v1.r.v); }
    case FieldAssign(t, _, e) =>
      FitsAppend(p, ExprOccs(t), ExprOccs(e));
      SimExpr(p, w, t, e1, e2, d, st);
      var t1, t2 := EvalExpr(w, t, e1, st, p.self1), EvalExpr(w, p.E(t), e2, st, p.self2);
      SimExpr(p, w, e, t1.env, t2.env, d, t1.st);
  }

  lemma SimDeclaration(p: Pairing, w: World, fuel: nat, s: Stmt, e1: Env, e2: Env, d: nat, st: Store)
    requires s.VarDecl? && p.Valid() && p.Rel(e1, e2, d) && p.Fits(StmtOccs(s))
    ensures p.Same(ExecStmt(w, fuel, s, e1, st, p.self1), ExecStmt(w, fuel, p.S(s), e2, st, p.self2), d)
  {
    var VarDecl(n, _, e) := s;
    FitsAppend(p, if e.Some? then ExprOccs(e.value) else [], [Decl(n)]);
    assert p.FitsOne(Decl(n));
    if e.Some? {
      SimExpr(p, w, e.value, e1, e2, d, st);
      var v1, v2 := EvalExpr(w, e.value, e1, st, p.self1), EvalExpr(w, p.E(e.value), e2, st, p.self2);
      if v1.r.Val? { RelDeclare(p, v1.env, v2.env, d, n, v1.r.v); }
    } else {
      RelDeclare(p, e1, e2, d, n, NullV);
    }
  }

  ghost predicate IsControl(s: Stmt) {
    !(s.Return? || s.VarDecl? || s.Assign? || s.FieldAssign? || s.ExprStmt? || s.Throw?)
  }

  lemma {:induction false} SimControl(p: Pairing, w: World, fuel: nat, s: Stmt, e1: Env, e2: Env, d: nat, st: Store)
    requires IsControl(s)
    requires p.Valid() && p.Rel(e1, e2, d) && p.Fits(StmtOccs(s))
    ensures p.Same(ExecStmt(w, fuel, s, e1, st, p.self1), ExecStmt(w, fuel, p.S(s), e2, st, p.self2), d)
    decreases fuel, s, 5
  {
    if s.While? {
      SimWhile(p, w, fuel, s, e1, e2, d, st);
    } else if s.DoWhile? {
      SimDoWhile(p, w, fuel, s, e1, e2, d, st);
    } else if s.For? {
      SimForStmt(p, w, fuel, s, e1, e2, d, st);
    } else if s.TryCatch? {
      SimTryCatch(p, w, fuel, s, e1, e2, d, st);
    } else if s.Switch? {
      SimSwitch(p, w, fuel, s, e1, e2, d, st);
    } else if s.If? || s.ForEach? || s.TryFinally? {
      SimNested(p, w, fuel, s, e1, e2, d, st);
    }
  }

  lemma {:induction false} SimNested(p: Pairing, w: World, fuel: nat, s: Stmt, e1: Env, e2: Env, d: nat, st: Store)
    requires s.If? || s.ForEach? || s.TryFinally?
    requires p.Valid() && p.Rel(e1, e2, d) && p.Fits(StmtOccs(s))
    ensures p.Same(ExecStmt(w, fuel, s, e1, st, p.self1), ExecStmt(w, fuel, p.S(s), e2, st, p.self2), d)
    decreases fuel, s, 4
  {
    if s.If? {
      SimIf(p, w, fuel, s, e1, e2, d, st);
    } else if s.ForEach? {
      SimForEachStmt(p, w, fuel, s, e1, e2, d, st);
    } else {
      SimTryFinally(p, w, fuel, s, e1, e2, d, st);
    }
  }

  lemma {:induction false} SimIf(p: Pairing, w: World, fuel: nat, s: Stmt, e1: Env, e2: Env, d: nat, st: Store)
    requires s.If? && p.Valid() && p.Rel(e1, e2, d) && p.Fits(StmtOccs(s))
    ensures p.Same(ExecStmt(w, fuel, s, e1, st, p.self1), ExecStmt(w, fuel, p.S(s), e2, st, p.self2), d)
    decreases fuel, s, 3
  {
    var If(c, t, f) := s;
    FitsAppend(p, ExprOccs(c), StmtsOccs(t));
    FitsAppend(p, ExprOccs(c) + StmtsOccs(t), StmtsOccs(f));
    SimExpr(p, w, c, e1, e2, d, st);
    var c1, c2 := EvalExpr(w, c, e1, st, p.self1), EvalExpr(w, p.E(c), e2, st, p.self2);
    SimBlock(p, w, fuel, t, map[], c1.env, c2.env, d, c1.st);
    SimBlock(p, w, fuel, f, map[], c1.env, c2.env, d, c1.st);
  }

  lemma {:induction false} SimForEachStmt(p: Pairing, w: World, fuel: nat, s: Stmt, e1: Env, e2: Env, d: nat, st: Store)
    requires s.ForEach? && p.Valid() && p.Rel(e1, e2, d) && p.Fits(StmtOccs(s))
    ensures p.Same(ExecStmt(w, fuel, s, e1, st, p.self1), ExecStmt(w, fuel, p.S(s), e2, st, p.self2), d)
    decreases fuel, s, 3
  {
    var ForEach(n, _, e, b) := s;
    FitsAppend(p, ExprOccs(e), [Decl(n)]);
    FitsAppend(p, ExprOccs(e) + [Decl(n)], StmtsOccs(b));
    SimExpr(p, w, e, e1, e2, d, st);
    var v1, v2 := EvalExpr(w, e, e1, st, p.self1), EvalExpr(w, p.E(e), e2, st, p.self2);
    if v1.r.Val? && v1.r.v.ListV? { SimForEach(p, w, fuel, s, v1.r.v.items, v1.env, v2.env, d, v1.st); }
  }

  lemma {:induction false} SimTryFinally(p: Pairing, w: World, fuel: nat, s: Stmt, e1: Env, e2: Env, d: nat, st: Store)
    requires s.TryFinally? && p.Valid() && p.Rel(e1, e2, d) && p.Fits(StmtOccs(s))
    ensures p.Same(ExecStmt(w, fuel, s, e1, st, p.self1), ExecStmt(w, fuel, p.S(s), e2, st, p.self2), d)
    decreases fuel, s, 3
  {
    var TryFinally(t, f) := s;
    FitsAppend(p, StmtsOccs(t), StmtsOccs(f));
    SimBlock(p, w, fuel, t, map[], e1, e2, d, st);
    var r1, r2 := ExecBlock(w, fuel, t, map[], e1, st, p.self1), ExecBlock(w, fuel, p.Ss(t), map[], e2, st, p.self2);
    SimBlock(p, w, fuel, f, map[], r1.env, r2.env, d, r1.st);
  }

  lemma {:induction false} SimTryCatch(p: Pairing, w: World, fuel: nat, s: Stmt, e1: Env, e2: Env, d: nat, st: Store)
    requires s.TryCatch? && p.Valid() && p.Rel(e1, e2, d) && p.Fits(StmtOccs(s))
    ensures p.Same(ExecStmt(w, fuel, s, e1, st, p.self1), ExecStmt(w, fuel, p.S(s), e2, st, p.self2), d)
    decreases fuel, s, 0
  {
    var t, n, c := s.tryBody, s.catchVar, s.catchBody;
    FitsAppend(p, StmtsOccs(t), [Decl(n)]);
    FitsAppend(p, StmtsOccs(t) + [Decl(n)], StmtsOccs(c));
    assert p.FitsOne(Decl(n));
    SimBlock(p, w, fuel, t, map[], e1, e2, d, st);
    var r1, r2 := ExecBlock(w, fuel, t, map[], e1, st, p.self1), ExecBlock(w, fuel, p.Ss(t), map[], e2, st, p.self2);
    if r1.out.Threw? { SimBlock(p, w, fuel, c, map[n := r1.out.value], r1.env, r2.env, d, r1.st); }
  }

  lemma {:induction false} SimForStmt(p: Pairing, w: World, fuel: nat, s: Stmt, e1: Env, e2: Env, d: nat, st: Store)
    requires s.For? && p.Valid() && p.Rel(e1, e2, d) && p.Fits(StmtOccs(s))
    ensures p.Same(ExecStmt(w, fuel, s, e1, st, p.self1), ExecStmt(w, fuel, p.S(s), e2, st, p.self2), d)
    decreases fuel, s, 1
  {
    FitsFor(p, s);
    ShapeFor(p, s);
    RelPush(p, e1, e2, d, map[]);
    var b1, b2 := [map[]] + e1, [map[]] + e2;
    if s.start.None? {
      SimFor(p, w, fuel, s, b1, b2, d + 1, st);
    } else {
      SimStmt(p, w, fuel, s.start.value, b1, b2, d + 1, st);
      var r1, r2 := ExecStmt(w, fuel, s.start.value, b1, st, p.self1),
          ExecStmt(w, fuel, p.S(s.start.value), b2, st, p.self2);
      SimFor(p, w, fuel, s, r1.env, r2.env, d + 1, r1.st);
    }
  }

  lemma FitsFor(p: Pairing, s: Stmt)
    requires s.For? && p.Fits(StmtOccs(s))
    ensures s.start.Some? ==> p.Fits(StmtOccs(s.start.value))
    ensures s.test.Some? ==> p.Fits(ExprOccs(s.test.value))
    ensures s.increment.Some? ==> p.Fits(StmtOccs(s.increment.value))
    ensures p.Fits(StmtsOccs(s.body))
  {
    var io := if s.start.Some? then StmtOccs(s.start.value) else [];
    var co := if s.test.Some? then ExprOccs(s.test.value) else [];
    var no := if s.increment.Some? then StmtOccs(s.increment.value) else [];
    FitsAppend(p, io, co);
    FitsAppend(p, io + co, no);
    FitsAppend(p, io + co + no, StmtsOccs(s.body));
  }

  lemma ShapeFor(p: Pairing, s: Stmt)
    requires s.For?
    ensures p.S(s) == For(p.OptS(s.start), p.OptE(s.test), p.OptS(s.increment), p.Ss(s.body))
  {
  }

  lemma {:induction false} SimFor(p: Pairing, w: World, fuel: nat, s: Stmt, e1: Env, e2: Env, d: nat, st: Store)
    requires s.For? && p.Valid() && p.Rel(e1, e2, d) && p.Fits(StmtOccs(s))
    ensures p.Same(ExecFor(w, fuel, s, e1, st, p.self1), ExecFor(w, fuel, p.S(s), e2, st, p.self2), d)
    decreases fuel, s, 0, 2
  {
    FitsFor(p, s);
    ShapeFor(p, s);
    var s2 := p.S(s);
    if s.test.Some? { SimExpr(p, w, s.test.value, e1, e2, d, st); }
    var c1 := if s.test.None? then ERes(e1, st, Val(BoolV(true))) else EvalExpr(w, s.test.value, e1, st, p.self1);
    var c2 := if s2.test.None? then ERes(e2, st, Val(BoolV(true))) else EvalExpr(w, s2.test.value, e2, st, p.self2);
    assert p.SameE(c1, c2, d);
    if c1.r == Val(BoolV(true)) && fuel > 0 { SimTurn(p, w, fuel, s, c1.env, c2.env, d, c1.st); }
  }

  /** One turn of a `for` loop whose test holds, and what follows it. */
  function Turn(w: World, fuel: nat, s: Stmt, env: Env, st: Store, self: Option<Value>): Res
    requires s.For? && fuel > 0
  {
    var r := ExecBlock(w, fuel, s.body, map[], env, st, self);
    if r.out.Broke? then Res(r.env, r.st, Normal)
    else if Leaves(r.out) then r
    else
      var i := ExecIncrement(w, fuel, s, r.env, r.st, self);
      if !i.out.Normal? then i else ExecFor(w, fuel - 1, s, i.env, i.st, self)
  }

  lemma {:induction false} SimTurn(p: Pairing, w: World, fuel: nat, s: Stmt, e1: Env, e2: Env, d: nat, st: Store)
    requires s.For? && fuel > 0 && p.Valid() && p.Rel(e1, e2, d) && p.Fits(StmtOccs(s)) && p.S(s).For?
    ensures p.Same(Turn(w, fuel, s, e1, st, p.self1), Turn(w, fuel, p.S(s), e2, st, p.self2), d)
    decreases fuel, s, 0, 1
  {
    FitsFor(p, s);
    ShapeFor(p, s);
    var s2 := p.S(s);
    SimBlock(p, w, fuel, s.body, map[], e1, e2, d, st);
    var r1 := ExecBlock(w, fuel, s.body, map[], e1, st, p.self1);
    var r2 := ExecBlock(w, fuel, s2.body, map[], e2, st, p.self2);
    if !r1.out.Broke? && !Leaves(r1.out) {
      SimIncrement(p, w, fuel, s, r1.env, r2.env, d, r1.st);
      var i1, i2 := ExecIncrement(w, fuel, s, r1.env, r1.st, p.self1),
          ExecIncrement(w, fuel, s2, r2.env, r2.st, p.self2);
      if i1.out.Normal? { SimFor(p, w, fuel - 1, s, i1.env, i2.env, d, i1.st); }
    }
  }

  lemma {:induction false} SimIncrement(p: Pairing, w: World, fuel: nat, s: Stmt, e1: Env, e2: Env, d: nat, st: Store)
    requires s.For? && p.Valid() && p.Rel(e1, e2, d) && p.Fits(StmtOccs(s))
    ensures p.Same(ExecIncrement(w, fuel, s, e1, st, p.self1), ExecIncrement(w, fuel, p.S(s), e2, st, p.self2), d)
    decreases fuel, s, 0, 0
  {
    FitsFor(p, s);
    ShapeFor(p, s);
    if s.increment.Some? { SimStmt(p, w, fuel, s.increment.value, e1, e2, d, st); }
  }

  lemma {:induction false} SimWhile(p: Pairing, w: World, fuel: nat, s: Stmt, e1: Env, e2: Env, d: nat, st: Store)
    requires s.While? && p.Valid() && p.Rel(e1, e2, d) && p.Fits(StmtOccs(s))
    ensures p.Same(ExecWhile(w, fuel, s, e1, st, p.self1), ExecWhile(w, fuel, p.S(s), e2, st, p.self2), d)
    decreases fuel, s, 0
  {
    LoopShape(p, s);
    SimExpr(p, w, s.condition, e1, e2, d, st);
    var c1, c2 := EvalExpr(w, s.condition, e1, st, p.self1), EvalExpr(w, p.E(s.condition), e2, st, p.self2);
    if c1.r == Val(BoolV(true)) && fuel > 0 {
      SimBlock(p, w, fuel, s.body, map[], c1.env, c2.env, d, c1.st);
      var r1 := ExecBlock(w, fuel, s.body, map[], c1.env, c1.st, p.self1);
      var r2 := ExecBlock(w, fuel, p.Ss(s.body), map[], c2.env, c2.st, p.self2);
      SimWhile(p, w, fuel - 1, s, r1.env, r2.env, d, r1.st);
    }
  }

  lemma LoopShape(p: Pairing, s: Stmt)
    requires (s.While? || s.DoWhile?) && p.Fits(StmtOccs(s))
    ensures p.Fits(ExprOccs(s.condition)) && p.Fits(StmtsOccs(s.body))
    ensures p.S(s) == if s.While? then While(p.E(s.condition), p.Ss(s.body))
        else DoWhile(p.Ss(s.body), p.E(s.condition))
  {
    FitsAppend(p, StmtsOccs(s.body), ExprOccs(s.condition));
    FitsAppend(p, ExprOccs(s.condition), StmtsOccs(s.body));
  }

  lemma {:induction false} SimDoWhile(p: Pairing, w: World, fuel: nat, s: Stmt, e1: Env, e2: Env, d: nat, st: Store)
    requires s.DoWhile? && p.Valid() && p.Rel(e1, e2, d) && p.Fits(StmtOccs(s))
    ensures p.Same(ExecDoWhile(w, fuel, s, e1, st, p.self1), ExecDoWhile(w, fuel, p.S(s), e2, st, p.self2), d)
    decreases fuel, s, 1
  {
    LoopShape(p, s);
    if fuel > 0 {
      SimBlock(p, w, fuel, s.body, map[], e1, e2, d, st);
      var r1 := ExecBlock(w, fuel, s.body, map[], e1, st, p.self1);
      var r2 := ExecBlock(w, fuel, p.Ss(s.body), map[], e2, st, p.self2);
      if !r1.out.Broke? && !Leaves(r1.out) { SimAgain(p, w, fuel, s, r1.env, r2.env, d, r1.st); }
    }
  }

  /** The test of a `do` loop, and what follows it. */
  function Again(w: World, fuel: nat, s: Stmt, env: Env, st: Store, self: Option<Value>): Res
    requires s.DoWhile? && fuel > 0
  {
    var c := EvalExpr(w, s.condition, env, st, self);
    if c.r == Val(BoolV(false)) then Res(c.env, c.st, Normal)
    else if c.r != Val(BoolV(true)) then Res(c.env, c.st, Threw(if c.r.Err? then c.r.thrown else Stuck))
    else ExecDoWhile(w, fuel - 1, s, c.env, c.st, self)
  }

  lemma {:induction false} SimAgain(p: Pairing, w: World, fuel: nat, s: Stmt, e1: Env, e2: Env, d: nat, st: Store)
    requires s.DoWhile? && fuel > 0 && p.Valid() && p.Rel(e1, e2, d) && p.Fits(StmtOccs(s)) && p.S(s).DoWhile?
    ensures p.Same(Again(w, fuel, s, e1, st, p.self1), Again(w, fuel, p.S(s), e2, st, p.self2), d)
    decreases fuel, s, 0
  {
    LoopShape(p, s);
    SimExpr(p, w, s.condition, e1, e2, d, st);
    var c1, c2 := EvalExpr(w, s.condition, e1, st, p.self1), EvalExpr(w, p.E(s.condition), e2, st, p.self2);
    if c1.r == Val(BoolV(true)) { SimDoWhile(p, w, fuel - 1, s, c1.env, c2.env, d, c1.st); }
  }

  lemma {:induction false} SimForEach(p: Pairing, w: World, fuel: nat, s: Stmt, items: seq<Value>,
                                      e1: Env, e2: Env, d: nat, st: Store)
    requires s.ForEach? && p.Valid() && p.Rel(e1, e2, d) && p.Fits(StmtOccs(s))
    ensures p.Same(ExecForEach(w, fuel, s, items, e1, st, p.self1),
                   ExecForEach(w, fuel, p.S(s), items, e2, st, p.self2), d)
    decreases fuel, s, 0, |items|
  {
    FitsAppend(p, ExprOccs(s.iterable), [Decl(s.name)]);
    FitsAppend(p, ExprOccs(s.iterable) + [Decl(s.name)], StmtsOccs(s.body));
    assert p.FitsOne(Decl(s.name));
    if items != [] {
      SimBlock(p, w, fuel, s.body, map[s.name := items[0]], e1, e2, d, st);
      var r1 := ExecBlock(w, fuel, s.body, map[s.name := items[0]], e1, st, p.self1);
      var r2 := ExecBlock(w, fuel, p.Ss(s.body), map[s.name := items[0]], e2, st, p.self2);
      SimForEach(p, w, fuel, s, items[1..], r1.env, r2.env, d, r1.st);
    }
  }

  lemma {:induction false} SimSwitch(p: Pairing, w: World, fuel: nat, s: Stmt, e1: Env, e2: Env, d: nat, st: Store)
    requires s.Switch? && p.Valid() && p.Rel(e1, e2, d) && p.Fits(StmtOccs(s))
    ensures p.Same(ExecStmt(w, fuel, s, e1, st, p.self1), ExecStmt(w, fuel, p.S(s), e2, st, p.self2), d)
    decreases fuel, s, 2
  {
    FitsAppend(p, ExprOccs(s.scrutinee), CasesOccs(s.cases));
    FitsAppend(p, ExprOccs(s.scrutinee) + CasesOccs(s.cases), StmtsOccs(s.default));
    SimExpr(p, w, s.scrutinee, e1, e2, d, st);
    var v1, v2 := EvalExpr(w, s.scrutinee, e1, st, p.self1), EvalExpr(w, p.E(s.scrutinee), e2, st, p.self2);
    if v1.r.Val? {
      SimSelect(p, w, s.cases, v1.r.v, v1.env, v2.env, d, v1.st);
      var k1 := SelectCase(w, s.cases, v1.r.v, v1.env, v1.st, p.self1);
      var k2 := SelectCase(w, p.Cs(s.cases), v1.r.v, v2.env, v2.st, p.self2);
      if k1.failed.None? { SimCase(p, w, fuel, s, k1.index, k1.env, k2.env, d, k1.st); }
    }
  }

  lemma {:induction false} SimSelect(p: Pairing, w: World, cases: seq<SwitchCase>, v: Value, e1: Env, e2: Env, d: nat,
                                     st: Store)
    requires p.Valid() && p.Rel(e1, e2, d) && p.Fits(CasesOccs(cases))
    ensures var k1, k2 := SelectCase(w, cases, v, e1, st, p.self1), SelectCase(w, p.Cs(cases), v, e2, st, p.self2);
            k1.st == k2.st && k1.failed == k2.failed && k1.index == k2.index && p.Rel(k1.env, k2.env, d)
    decreases cases
  {
    if cases != [] {
      FitsCases(p, cases);
      SimExprs(p, w, cases[0].values, e1, e2, d, st);
      var r1, r2 := EvalExprs(w, cases[0].values, e1, st, p.self1),
          EvalExprs(w, p.Es(cases[0].values), e2, st, p.self2);
      SimSelect(p, w, cases[1..], v, r1.env, r2.env, d, r1.st);
      assert p.guard.Some? ==> p.Cs(cases)[1..] == p.Cs(cases[1..]);
    }
  }

  lemma FitsCases(p: Pairing, cases: seq<SwitchCase>)
    requires cases != [] && p.Fits(CasesOccs(cases))
    ensures p.Fits(ExprsOccs(cases[0].values)) && p.Fits(StmtsOccs(cases[0].body)) && p.Fits(CasesOccs(cases[1..]))
  {
    var a, b := ExprsOccs(cases[0].values), StmtsOccs(cases[0].body);
    FitsAppend(p, a, b);
    FitsAppend(p, a + b, CasesOccs(cases[1..]));
  }

  /** Case `k` of the rewritten switch is the rewriting of case `k`, under the same tags. */
  lemma {:induction false} CaseAt(p: Pairing, cases: seq<SwitchCase>, k: nat)
    requires p.Fits(CasesOccs(cases))
    ensures |p.Cs(cases)| == |cases|
    ensures k < |cases| ==> p.Cs(cases)[k].body == p.Ss(cases[k].body) && p.Fits(StmtsOccs(cases[k].body))
  {
    if cases != [] {
      FitsCases(p, cases);
      if k > 0 { CaseAt(p, cases[1..], k - 1); }
    }
  }

  lemma TagsKept(p: Pairing, cases: seq<SwitchCase>, tag: string)
    ensures LabelIndex(p.Cs(cases), tag) == LabelIndex(cases, tag)
  {
    if cases != [] {
      TagsKept(p, cases[1..], tag);
      assert p.guard.Some? ==> p.Cs(cases)[1..] == p.Cs(cases[1..]);
    }
  }

  lemma {:induction false} SimCaseBody(p: Pairing, w: World, fuel: nat, s: Stmt, index: nat, e1: Env, e2: Env, d: nat,
                                       st: Store)
    requires s.Switch? && p.Valid() && p.Rel(e1, e2, d) && p.Fits(StmtOccs(s))
    ensures p.S(s) == Switch(p.E(s.scrutinee), p.Cs(s.cases), s.hasDefault, p.Ss(s.default))
    ensures p.Same(ExecCaseBody(w, fuel, s, index, e1, st, p.self1),
                   ExecCaseBody(w, fuel, p.S(s), index, e2, st, p.self2), d)
    decreases fuel, s, 0
  {
    FitsAppend(p, ExprOccs(s.scrutinee), CasesOccs(s.cases));
    FitsAppend(p, ExprOccs(s.scrutinee) + CasesOccs(s.cases), StmtsOccs(s.default));
    CaseAt(p, s.cases, index);
    assert p.S(s) == Switch(p.E(s.scrutinee), p.Cs(s.cases), s.hasDefault, p.Ss(s.default));
    if index < |s.cases| {
      SimBlock(p, w, fuel, s.cases[index].body, map[], e1, e2, d, st);
    } else if s.hasDefault {
      SimBlock(p, w, fuel, s.default, map[], e1, e2, d, st);
    }
  }

  lemma {:induction false} SimCase(p: Pairing, w: World, fuel: nat, s: Stmt, index: nat, e1: Env, e2: Env, d: nat,
                                   st: Store)
    requires s.Switch? && p.Valid() && p.Rel(e1, e2, d) && p.Fits(StmtOccs(s))
    ensures p.Same(ExecCase(w, fuel, s, index, e1, st, p.self1), ExecCase(w, fuel, p.S(s), index, e2, st, p.self2), d)
    decreases fuel, s, 1
  {
    SimCaseBody(p, w, fuel, s, index, e1, e2, d, st);
    var r1, r2 := ExecCaseBody(w, fuel, s, index, e1, st, p.self1),
        ExecCaseBody(w, fuel, p.S(s), index, e2, st, p.self2);
    if r1.out.Jumped? {
      TagsKept(p, s.cases, r1.out.tag);
      var target := LabelIndex(s.cases, r1.out.tag);
      if target.Some? && fuel > 0 {
        SimCase(p, w, fuel - 1, s, target.value, r1.env, r2.env, d, r1.st);
      }
    }
  }
}
