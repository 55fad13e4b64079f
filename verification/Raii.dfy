/**
 The scope-guard pass: the first local of a function whose type has a real
 destructor becomes a `try`/`finally` whose `finally` block is the destructor's
 body, with `this` replaced by the local.
 */
module Raii {
  import opened Wrappers
  import opened Ir
  import opened Occurrences
  import opened Rewriting

  // ----- `this` becomes the guarded local -----

  function ReplaceExpr(e: Expr, x: string): Expr
    decreases e, 0
  {
    match e
    case This(ty, origin) => Ref(x, ty, origin)
    case IntLiteral(_, _) => e
    case BoolLiteral(_, _) => e
    case StringLiteral(_, _) => e
    case NullLiteral(_) => e
    case Ref(_, _, _) => e
    case Binary(_, l, r, _, _) => e.(lhs := ReplaceExpr(l, x), rhs := ReplaceExpr(r, x))
    case Conditional(c, t, f, _, _) =>
      e.(condition := ReplaceExpr(c, x), thenExpr := ReplaceExpr(t, x), elseExpr := ReplaceExpr(f, x))
    case Is(o, _, _) => e.(operand := ReplaceExpr(o, x))
    case AssignExpr(t, v, _, _) => e.(target := ReplaceExpr(t, x), rvalue := ReplaceExpr(v, x))
    case FieldAccess(t, field, ty, origin) => FieldAccess(ReplaceExpr(t, x), field, ty, origin)
    case Call(receiver, _, _, _, args, _, _) =>
      e.(receiver := if receiver.Some? then Some(ReplaceExpr(receiver.value, x))
         else None, args := ReplaceExprs(args, x))
    case RecordConstruct(usr, name, names, args, origin) =>
      RecordConstruct(usr, name, names, ReplaceExprs(args, x), origin)
    case RecordCopy(t, usr, name, origin) => RecordCopy(ReplaceExpr(t, x), usr, name, origin)
    case ConstructorCall(usr, name, index, args, origin) =>
      ConstructorCall(usr, name, index, ReplaceExprs(args, x), origin)
    case Lambda(_, body, _, _) => e.(body := ReplaceStmts(body, x))
    case UnsupportedTyped(_, _, _) => e
  }

  function ReplaceExprs(es: seq<Expr>, x: string): seq<Expr>
    decreases es, 0
  {
    if es == [] then [] else [ReplaceExpr(es[0], x)] + ReplaceExprs(es[1..], x)
  }

  function ReplaceStmts(ss: seq<Stmt>, x: string): seq<Stmt>
    decreases ss, 0
  {
    if ss == [] then [] else [ReplaceStmt(ss[0], x)] + ReplaceStmts(ss[1..], x)
  }

  function ReplaceStmt(s: Stmt, x: string): Stmt
    decreases s, 0
  {
    match s
    case Return(e) => Return(if e.Some? then Some(ReplaceExpr(e.value, x)) else None)
    case VarDecl(n, ty, e) => VarDecl(n, ty, if e.Some? then Some(ReplaceExpr(e.value, x)) else None)
    case Assign(n, e) => Assign(n, ReplaceExpr(e, x))
    case FieldAssign(t, field, e) => FieldAssign(ReplaceExpr(t, x), field, ReplaceExpr(e, x))
    case If(c, t, f) => If(ReplaceExpr(c, x), ReplaceStmts(t, x), ReplaceStmts(f, x))
    case While(c, b) => While(ReplaceExpr(c, x), ReplaceStmts(b, x))
    case DoWhile(b, c) => DoWhile(ReplaceStmts(b, x), ReplaceExpr(c, x))
    case For(i, c, n, b) =>
      For(if i.Some? then Some(ReplaceStmt(i.value, x)) else None,
          if c.Some? then Some(ReplaceExpr(c.value, x)) else None,
          if n.Some? then Some(ReplaceStmt(n.value, x)) else None, ReplaceStmts(b, x))
    case ForEach(n, ty, e, b) => ForEach(n, ty, ReplaceExpr(e, x), ReplaceStmts(b, x))
    case ExprStmt(e) => ExprStmt(ReplaceExpr(e, x))
    case Throw(e) => Throw(ReplaceExpr(e, x))
    case TryCatch(t, ty, n, c) => TryCatch(ReplaceStmts(t, x), ty, n, ReplaceStmts(c, x))
    case TryFinally(t, f) => TryFinally(ReplaceStmts(t, x), ReplaceStmts(f, x))
    case Switch(e, cases, h, d) => Switch(ReplaceExpr(e, x), ReplaceCases(cases, x), h, ReplaceStmts(d, x))
    case Break => s
    case Continue => s
    case ContinueLabel(_) => s
    case UnsupportedStmt(_) => s
  }

  function ReplaceCases(cases: seq<SwitchCase>, x: string): (r: seq<SwitchCase>)
    ensures |r| == |cases|
    decreases cases, 0
  {
    if cases == [] then []
    else [SwitchCase(ReplaceExprs(cases[0].values, x), ReplaceStmts(cases[0].body, x), cases[0].tag)]
         + ReplaceCases(cases[1..], x)
  }

  // ----- is the local mentioned at all? -----

  predicate ExprReferences(e: Expr, x: string)
    decreases e, 0
  {
    match e
    case Ref(n, _, _) => n == x
    case Binary(_, l, r, _, _) => ExprReferences(l, x) || ExprReferences(r, x)
    case Conditional(c, t, f, _, _) => ExprReferences(c, x) || ExprReferences(t, x) || ExprReferences(f, x)
    case Is(o, _, _) => ExprReferences(o, x)
    case AssignExpr(t, v, _, _) => ExprReferences(t, x) || ExprReferences(v, x)
    case FieldAccess(t, _, _, _) => ExprReferences(t, x)
    case Call(receiver, _, _, _, args, _, _) =>
      (receiver.Some? && ExprReferences(receiver.value, x)) || ExprsReference(args, x)
    case RecordConstruct(_, _, _, args, _) => ExprsReference(args, x)
    case RecordCopy(t, _, _, _) => ExprReferences(t, x)
    case ConstructorCall(_, _, _, args, _) => ExprsReference(args, x)
    case Lambda(_, body, _, _) => StmtsReference(body, x)
    case _ => false
  }

  predicate ExprsReference(es: seq<Expr>, x: string)
    decreases es, 0
  {
    es != [] && (ExprReferences(es[0], x) || ExprsReference(es[1..], x))
  }

  predicate StmtsReference(ss: seq<Stmt>, x: string)
    decreases ss, 0
  {
    ss != [] && (StmtReferences(ss[0], x) || StmtsReference(ss[1..], x))
  }

  predicate StmtReferences(s: Stmt, x: string)
    decreases s, 0
  {
    match s
    case Return(e) => e.Some? && ExprReferences(e.value, x)
    case VarDecl(_, _, e) => e.Some? && ExprReferences(e.value, x)
    case Assign(_, e) => ExprReferences(e, x)
    case FieldAssign(t, _, e) => ExprReferences(t, x) || ExprReferences(e, x)
    case If(c, t, f) => ExprReferences(c, x) || StmtsReference(t, x) || StmtsReference(f, x)
    case While(c, b) => ExprReferences(c, x) || StmtsReference(b, x)
    case DoWhile(b, c) => StmtsReference(b, x) || ExprReferences(c, x)
    case For(i, c, n, b) =>
      (i.Some? && StmtReferences(i.value, x)) || (c.Some? && ExprReferences(c.value, x))
      || (n.Some? && StmtReferences(n.value, x)) || StmtsReference(b, x)
    case ForEach(_, _, e, b) => ExprReferences(e, x) || StmtsReference(b, x)
    case ExprStmt(e) => ExprReferences(e, x)
    case Throw(e) => ExprReferences(e, x)
    case TryCatch(t, _, _, c) => StmtsReference(t, x) || StmtsReference(c, x)
    case TryFinally(t, f) => StmtsReference(t, x) || StmtsReference(f, x)
    case Switch(e, cases, _, d) => ExprReferences(e, x) || CasesReference(cases, x) || StmtsReference(d, x)
    case _ => false
  }

  predicate CasesReference(cases: seq<SwitchCase>, x: string)
    decreases cases, 0
  {
    cases != [] && (ExprsReference(cases[0].values, x) || StmtsReference(cases[0].body, x)
                    || CasesReference(cases[1..], x))
  }

  // ----- the rewrite -----

  type Destructors = map<string, seq<Stmt>>

  predicate IsGuard(s: Stmt, dtors: Destructors) {
    s.VarDecl? && s.ty.Record? && s.ty.usr in dtors
  }

  /** The position of the first guarded local, or the length. */
  function GuardIndex(body: seq<Stmt>, dtors: Destructors): (i: nat)
    ensures i <= |body|
    ensures i < |body| ==> IsGuard(body[i], dtors)
    ensures forall k | 0 <= k < i :: !IsGuard(body[k], dtors)
  {
    if body == [] || IsGuard(body[0], dtors) then 0 else 1 + GuardIndex(body[1..], dtors)
  }

  function Guarded(body: seq<Stmt>, dtors: Destructors): seq<Stmt> {
    var i := GuardIndex(body, dtors);
    if i == |body| then body
    else body[..i] + GuardedFrom(body[i], body[i + 1..], dtors[body[i].ty.usr])
  }

  /** `decl` guards `rest`: a declaration nothing mentions keeps only its initializer. */
  function GuardedFrom(decl: Stmt, rest: seq<Stmt>, dtor: seq<Stmt>): seq<Stmt>
    requires decl.VarDecl?
  {
    var last := ReplaceStmts(dtor, decl.name);
    var binding := if StmtsReference(rest, decl.name) || StmtsReference(last, decl.name) then [decl]
                   else if decl.init.Some? then [ExprStmt(decl.init.value)] else [];
    binding + [TryFinally(rest, last)]
  }

  method GuardBody(body: seq<Stmt>, dtors: Destructors) returns (stmts: seq<Stmt>)
    ensures stmts == Guarded(body, dtors)
  {
    var index := 0;
    while index < |body| && !IsGuard(body[index], dtors)
      invariant index <= |body|
      invariant GuardIndex(body, dtors) >= index
    {
      GuardIndexStep(body, dtors, index);
      index := index + 1;
    }
    if index == |body| {
      return body;
    }
    var decl := body[index];
    var tryBody := body[index + 1..];
    var finallyBody := ReplaceStmts(dtors[decl.ty.usr], decl.name);
    stmts := body[..index];
    if StmtsReference(tryBody, decl.name) || StmtsReference(finallyBody, decl.name) {
      stmts := stmts + [decl];
    } else if decl.init.Some? {
      stmts := stmts + [ExprStmt(decl.init.value)];
    }
    stmts := stmts + [TryFinally(tryBody, finallyBody)];
  }

  lemma GuardIndexStep(body: seq<Stmt>, dtors: Destructors, index: nat)
    requires index < |body| && !IsGuard(body[index], dtors) && GuardIndex(body, dtors) >= index
    ensures GuardIndex(body, dtors) >= index + 1
  {
  }

  // ----- the pass, said of the records themselves -----

  /** Record `k` is the last one of this usr that has a destructor. */
  ghost predicate Destroys(records: seq<Record>, usr: string, k: int) {
    && 0 <= k < |records| && records[k].usr == usr && records[k].destructor.Some?
    && forall j | k < j < |records| :: records[j].usr != usr || records[j].destructor.None?
  }

  /** A declaration of a local whose class has a destructor. */
  ghost predicate NeedsGuard(records: seq<Record>, s: Stmt) {
    s.VarDecl? && s.ty.Record? && exists k :: Destroys(records, s.ty.usr, k)
  }

  ghost predicate FirstGuard(records: seq<Record>, body: seq<Stmt>, i: int) {
    0 <= i < |body| && NeedsGuard(records, body[i]) && forall j | 0 <= j < i :: !NeedsGuard(records, body[j])
  }

  /** The rest uses the local, or its destructor uses the object. */
  predicate BindingUsed(x: string, rest: seq<Stmt>, dtor: seq<Stmt>) {
    Use(x) in StmtsOccs(rest) || Self in StmtsOccs(dtor) || Use(x) in StmtsOccs(dtor)
  }

  /** From `decl` on: the declaration, or its initializer alone where nothing uses the local, and
      the rest with the destructor after it. */
  ghost predicate GuardsRest(decl: Stmt, rest: seq<Stmt>, dtor: seq<Stmt>, after: seq<Stmt>)
    requires decl.VarDecl?
  {
    var guard := TryFinally(rest, ReplaceStmts(dtor, decl.name));
    after == if BindingUsed(decl.name, rest, dtor) then [decl, guard]
             else if decl.init.Some? then [ExprStmt(decl.init.value), guard]
             else [guard]
  }

  /** What becomes of a body. */
  ghost predicate GuardedAs(records: seq<Record>, before: seq<Stmt>, after: seq<Stmt>) {
    && ((forall j | 0 <= j < |before| :: !NeedsGuard(records, before[j])) ==> after == before)
    && forall i, k | FirstGuard(records, before, i) && Destroys(records, before[i].ty.usr, k) ::
         SplitAt(before, i, records[k].destructor.value, after)
  }

  /** Up to `i` the body stays; from there on the local is guarded. */
  ghost predicate SplitAt(before: seq<Stmt>, i: int, dtor: seq<Stmt>, after: seq<Stmt>)
    requires 0 <= i < |before| && before[i].VarDecl?
  {
    && i <= |after| && after[..i] == before[..i]
    && GuardsRest(before[i], before[i + 1..], dtor, after[i..])
  }

  ghost predicate DestructorMap(records: seq<Record>, dtors: Destructors) {
    && (forall u :: u in dtors <==> exists k :: Destroys(records, u, k))
    && (forall u, k | Destroys(records, u, k) :: dtors[u] == records[k].destructor.value)
  }

  lemma OneMoreRecord(records: seq<Record>, k: nat, dtors: Destructors)
    requires k < |records| && DestructorMap(records[..k], dtors)
    ensures var r := records[k];
            DestructorMap(records[..k + 1], if r.destructor.Some? then dtors[r.usr := r.destructor.value] else dtors)
  {
    var r, now, was := records[k], records[..k + 1], records[..k];
    forall u, j ensures Destroys(now, u, j) <==>
                        if r.usr == u && r.destructor.Some? then j == k else Destroys(was, u, j) {
      assert forall i | 0 <= i < k :: now[i] == was[i];
      if Destroys(now, u, j) && j < k { assert now[k] == r; }
    }
    assert r.destructor.Some? ==> Destroys(now, r.usr, k);
  }

  lemma SameGuards(records: seq<Record>, dtors: Destructors, s: Stmt)
    requires DestructorMap(records, dtors)
    ensures IsGuard(s, dtors) <==> NeedsGuard(records, s)
  {
  }

  lemma GuardedMeetsSpec(records: seq<Record>, dtors: Destructors, body: seq<Stmt>)
    requires DestructorMap(records, dtors)
    ensures GuardedAs(records, body, Guarded(body, dtors))
  {
    forall s ensures IsGuard(s, dtors) <==> NeedsGuard(records, s) { SameGuards(records, dtors, s); }
    var at, after := GuardIndex(body, dtors), Guarded(body, dtors);
    forall i, k | FirstGuard(records, body, i) && Destroys(records, body[i].ty.usr, k)
      ensures SplitAt(body, i, records[k].destructor.value, after)
    {
      assert i == at;
      var rest, dtor := body[i + 1..], records[k].destructor.value;
      assert after == body[..i] + GuardedFrom(body[i], rest, dtor);
      GuardedFromMeetsSpec(body[i], rest, dtor);
    }
  }

  lemma GuardedFromMeetsSpec(decl: Stmt, rest: seq<Stmt>, dtor: seq<Stmt>)
    requires decl.VarDecl?
    ensures GuardsRest(decl, rest, dtor, GuardedFrom(decl, rest, dtor))
  {
    var x, last := decl.name, ReplaceStmts(dtor, decl.name);
    StmtsReferenceIffUsed(rest, x);
    StmtsReferenceIffUsed(last, x);
    ReplaceStmtsOccs(dtor, x);
    UsedOnceRenamed(StmtsOccs(dtor), x);
    assert StmtsReference(rest, x) || StmtsReference(last, x) <==> BindingUsed(x, rest, dtor);
  }

  lemma {:induction false} UsedOnceRenamed(os: seq<Occ>, x: string)
    ensures Use(x) in Renamed(os, x) <==> Self in os || Use(x) in os
    decreases |os|
  {
    if os != [] { UsedOnceRenamed(os[1..], x); }
  }

  method CollectDestructors(records: seq<Record>) returns (dtors: Destructors)
    ensures DestructorMap(records, dtors)
  {
    dtors := map[];
    for k := 0 to |records|
      invariant DestructorMap(records[..k], dtors)
    {
      OneMoreRecord(records, k, dtors);
      if records[k].destructor.Some? {
        dtors := dtors[records[k].usr := records[k].destructor.value];
      }
    }
    assert records[..|records|] == records;
  }

  lemma UnguardedMeetsSpec(records: seq<Record>, body: seq<Stmt>)
    requires DestructorMap(records, map[])
    ensures GuardedAs(records, body, body)
  {
    GuardedMeetsSpec(records, map[], body);
    assert GuardIndex(body, map[]) == |body|;
  }

  /** `after` is `before` but for its body, which has been guarded. */
  ghost predicate GuardedFunction(records: seq<Record>, before: Function, after: Function) {
    after == before.(body := after.body) && GuardedAs(records, before.body, after.body)
  }

  method GuardFunction(records: seq<Record>, dtors: Destructors, f: Function) returns (guarded: Function)
    requires DestructorMap(records, dtors)
    ensures GuardedFunction(records, f, guarded)
  {
    GuardedMeetsSpec(records, dtors, f.body);
    var body := GuardBody(f.body, dtors);
    guarded := f.(body := body);
  }

  method GuardFunctions(records: seq<Record>, dtors: Destructors, functions: array<Function>)
    requires DestructorMap(records, dtors)
    modifies functions
    ensures forall i | 0 <= i < functions.Length :: GuardedFunction(records, old(functions[i]), functions[i])
  {
    for i := 0 to functions.Length
      invariant forall k | 0 <= k < i :: GuardedFunction(records, old(functions[k]), functions[k])
      invariant forall k | i <= k < functions.Length :: functions[k] == old(functions[k])
    {
      functions[i] := GuardFunction(records, dtors, functions[i]);
    }
  }

  lemma NothingToGuard(records: seq<Record>, fs: seq<Function>)
    requires DestructorMap(records, map[])
    ensures forall i | 0 <= i < |fs| :: GuardedFunction(records, fs[i], fs[i])
  {
    forall i | 0 <= i < |fs| ensures GuardedFunction(records, fs[i], fs[i]) {
      UnguardedMeetsSpec(records, fs[i].body);
    }
  }

  /** The whole pass, over the function list in place. */
  method ApplyScopeGuards(functions: array<Function>, records: seq<Record>)
    modifies functions
    ensures forall i | 0 <= i < functions.Length :: GuardedFunction(records, old(functions[i]), functions[i])
  {
    var dtors := CollectDestructors(records);
    if dtors == map[] {
      NothingToGuard(records, functions[..]);
      return;
    }
    GuardFunctions(records, dtors, functions);
  }

  // ----- what the two syntactic functions do to the occurrences -----

  function RenamedOne(o: Occ, x: string): Occ {
    if o.Self? then Use(x) else if o.PutSelf? then Put(x) else o
  }

  function Renamed(os: seq<Occ>, x: string): seq<Occ> {
    if os == [] then [] else [RenamedOne(os[0], x)] + Renamed(os[1..], x)
  }

  lemma RenamedAppend(a: seq<Occ>, b: seq<Occ>, x: string)
    ensures Renamed(a + b, x) == Renamed(a, x) + Renamed(b, x)
  {
    if a == [] {
      assert a + b == b;
    } else {
      assert (a + b)[1..] == a[1..] + b;
      RenamedAppend(a[1..], b, x);
    }
  }

  lemma RenamedAround(a: seq<Occ>, n: string, b: seq<Occ>, x: string)
    ensures Renamed(a + [Decl(n)] + b, x) == Renamed(a, x) + [Decl(n)] + Renamed(b, x)
  {
    RenamedAppend(a, [Decl(n)], x);
    RenamedAppend(a + [Decl(n)], b, x);
  }

  /** Only a top-level `this` is replaced; one in a lambda's parameter defaults survives. */
  lemma {:induction false} ReplaceExprOccs(e: Expr, x: string)
    ensures ExprOccs(ReplaceExpr(e, x)) == Renamed(ExprOccs(e), x)
    decreases e, 1
  {
    match e
    case Is(o, _, _) => ReplaceExprOccs(o, x);
    case FieldAccess(t, _, _, _) => ReplaceExprOccs(t, x);
    case RecordConstruct(_, _, _, args, _) => ReplaceExprsOccs(args, x);
    case RecordCopy(t, _, _, _) => ReplaceExprOccs(t, x);
    case ConstructorCall(_, _, _, args, _) => ReplaceExprsOccs(args, x);
    case Binary(_, _, _, _, _) => ReplacePartsOccs(e, x);
    case Conditional(_, _, _, _, _) => ReplacePartsOccs(e, x);
    case AssignExpr(_, _, _, _) => ReplaceAssignOccs(e, x);
    case Call(_, _, _, _, _, _, _) => ReplacePartsOccs(e, x);
    case Lambda(_, _, _, _) => ReplacePartsOccs(e, x);
    case _ =>
  }

  lemma {:induction false} ReplaceAssignOccs(e: Expr, x: string)
    requires e.AssignExpr?
    ensures ExprOccs(ReplaceExpr(e, x)) == Renamed(ExprOccs(e), x)
    decreases e, 0
  {
    var t, v := e.target, e.rvalue;
    ReplaceExprOccs(t, x); ReplaceExprOccs(v, x);
    RenamedAppend(ExprOccs(t), ExprOccs(v), x);
    RenamedAppend(ExprOccs(t) + ExprOccs(v), if t.Ref? then [Put(t.name)] else if t.This? then [PutSelf] else [], x);
  }

  lemma {:induction false} ReplacePartsOccs(e: Expr, x: string)
    requires e.Binary? || e.Conditional? || e.Call? || e.Lambda?
    ensures ExprOccs(ReplaceExpr(e, x)) == Renamed(ExprOccs(e), x)
    decreases e, 0
  {
    match e
    case Binary(_, l, r, _, _) =>
      ReplaceExprOccs(l, x); ReplaceExprOccs(r, x); RenamedAppend(ExprOccs(l), ExprOccs(r), x);
    case Conditional(c, t, f, _, _) =>
      ReplaceExprOccs(c, x); ReplaceExprOccs(t, x); ReplaceExprOccs(f, x);
      RenamedAppend(ExprOccs(c), ExprOccs(t), x); RenamedAppend(ExprOccs(c) + ExprOccs(t), ExprOccs(f), x);
    case Call(receiver, _, _, _, args, _, _) =>
      if receiver.Some? { ReplaceExprOccs(receiver.value, x); }
      ReplaceExprsOccs(args, x);
      RenamedAppend(if receiver.Some? then ExprOccs(receiver.value) else [], ExprsOccs(args), x);
    case Lambda(params, body, _, _) =>
      ReplaceStmtsOccs(body, x); ParamsUntouched(params, x); RenamedAppend(ParamOccs(params), StmtsOccs(body), x);
  }

  lemma {:induction false} ReplaceExprsOccs(es: seq<Expr>, x: string)
    ensures ExprsOccs(ReplaceExprs(es, x)) == Renamed(ExprsOccs(es), x)
    decreases es, 0
  {
    if es != [] {
      ReplaceExprOccs(es[0], x); ReplaceExprsOccs(es[1..], x);
      RenamedAppend(ExprOccs(es[0]), ExprsOccs(es[1..]), x);
    }
  }

  lemma TaggedUntouched(os: seq<Occ>, x: string)
    ensures Renamed(Tagged(os), x) == Tagged(os)
  {
  }

  lemma {:induction false} ParamsUntouched(params: seq<Param>, x: string)
    ensures Renamed(ParamOccs(params), x) == ParamOccs(params)
    decreases params
  {
    if params != [] {
      var d := if params[0].defaultValue.Some? then Tagged(ExprOccs(params[0].defaultValue.value)) else [];
      if params[0].defaultValue.Some? { TaggedUntouched(ExprOccs(params[0].defaultValue.value), x); }
      ParamsUntouched(params[1..], x);
      RenamedAppend([Decl(params[0].name)], d, x);
      RenamedAppend([Decl(params[0].name)] + d, ParamOccs(params[1..]), x);
    }
  }

  lemma {:induction false} ReplaceStmtsOccs(ss: seq<Stmt>, x: string)
    ensures StmtsOccs(ReplaceStmts(ss, x)) == Renamed(StmtsOccs(ss), x)
    decreases ss, 0
  {
    if ss != [] {
      ReplaceStmtOccs(ss[0], x); ReplaceStmtsOccs(ss[1..], x);
      RenamedAppend(StmtOccs(ss[0]), StmtsOccs(ss[1..]), x);
    }
  }

  lemma {:induction false} ReplaceStmtOccs(s: Stmt, x: string)
    ensures StmtOccs(ReplaceStmt(s, x)) == Renamed(StmtOccs(s), x)
    decreases s, 2
  {
    match s
    case Return(e) => if e.Some? { ReplaceExprOccs(e.value, x); }
    case VarDecl(n, _, e) =>
      if e.Some? { ReplaceExprOccs(e.value, x); }
      RenamedAppend(if e.Some? then ExprOccs(e.value) else [], [Decl(n)], x);
    case Assign(n, e) => ReplaceExprOccs(e, x); RenamedAppend(ExprOccs(e), [Put(n)], x);
    case FieldAssign(t, _, e) =>
      ReplaceExprOccs(t, x); ReplaceExprOccs(e, x); RenamedAppend(ExprOccs(t), ExprOccs(e), x);
    case ExprStmt(e) => ReplaceExprOccs(e, x);
    case Throw(e) => ReplaceExprOccs(e, x);
    case For(_, _, _, _) => ReplaceForOccs(s, x);
    case Switch(_, _, _, _) => ReplaceSwitchOccs(s, x);
    case _ => ReplaceNestedOccs(s, x);
  }

  lemma {:induction false} ReplaceNestedOccs(s: Stmt, x: string)
    requires s.If? || s.While? || s.DoWhile? || s.ForEach? || s.TryCatch? || s.TryFinally?
             || s.Break? || s.Continue? || s.ContinueLabel? || s.UnsupportedStmt?
    ensures StmtOccs(ReplaceStmt(s, x)) == Renamed(StmtOccs(s), x)
    decreases s, 1
  {
    if s.ForEach? || s.TryCatch? || s.TryFinally? {
      ReplaceBinderOccs(s, x);
    } else {
      ReplaceBranchOccs(s, x);
    }
  }

  lemma {:induction false} ReplaceBranchOccs(s: Stmt, x: string)
    requires s.If? || s.While? || s.DoWhile? || s.Break? || s.Continue? || s.ContinueLabel? || s.UnsupportedStmt?
    ensures StmtOccs(ReplaceStmt(s, x)) == Renamed(StmtOccs(s), x)
    decreases s, 0
  {
    match s
    case If(c, t, f) =>
      ReplaceExprOccs(c, x); ReplaceStmtsOccs(t, x); ReplaceStmtsOccs(f, x);
      RenamedAppend(ExprOccs(c), StmtsOccs(t), x); RenamedAppend(ExprOccs(c) + StmtsOccs(t), StmtsOccs(f), x);
    case While(c, b) => ReplaceExprOccs(c, x); ReplaceStmtsOccs(b, x); RenamedAppend(ExprOccs(c), StmtsOccs(b), x);
    case DoWhile(b, c) => ReplaceExprOccs(c, x); ReplaceStmtsOccs(b, x); RenamedAppend(StmtsOccs(b), ExprOccs(c), x);
    case _ =>
  }

  lemma {:induction false} ReplaceBinderOccs(s: Stmt, x: string)
    requires s.ForEach? || s.TryCatch? || s.TryFinally?
    ensures StmtOccs(ReplaceStmt(s, x)) == Renamed(StmtOccs(s), x)
    decreases s, 0
  {
    match s
    case ForEach(n, _, e, b) =>
      ReplaceExprOccs(e, x); ReplaceStmtsOccs(b, x); RenamedAround(ExprOccs(e), n, StmtsOccs(b), x);
    case TryCatch(t, _, n, c) =>
      ReplaceStmtsOccs(t, x); ReplaceStmtsOccs(c, x); RenamedAround(StmtsOccs(t), n, StmtsOccs(c), x);
    case TryFinally(t, f) =>
      ReplaceStmtsOccs(t, x);
      ReplaceStmtsOccs(f, x);
      RenamedAppend(StmtsOccs(t), StmtsOccs(f), x);
  }

  lemma {:induction false} ReplaceForOccs(s: Stmt, x: string)
    requires s.For?
    ensures StmtOccs(ReplaceStmt(s, x)) == Renamed(StmtOccs(s), x)
    decreases s, 0
  {
    var i, c, n := s.start, s.test, s.increment;
    var io := if i.Some? then StmtOccs(i.value) else [];
    var co := if c.Some? then ExprOccs(c.value) else [];
    var no := if n.Some? then StmtOccs(n.value) else [];
    if i.Some? { ReplaceStmtOccs(i.value, x); }
    if c.Some? { ReplaceExprOccs(c.value, x); }
    if n.Some? { ReplaceStmtOccs(n.value, x); }
    ReplaceStmtsOccs(s.body, x);
    RenamedAppend(io, co, x); RenamedAppend(io + co, no, x); RenamedAppend(io + co + no, StmtsOccs(s.body), x);
  }

  lemma {:induction false} ReplaceSwitchOccs(s: Stmt, x: string)
    requires s.Switch?
    ensures StmtOccs(ReplaceStmt(s, x)) == Renamed(StmtOccs(s), x)
    decreases s, 0
  {
    var e, cases, d := s.scrutinee, s.cases, s.default;
    ReplaceExprOccs(e, x); ReplaceCasesOccs(cases, x); ReplaceStmtsOccs(d, x);
    RenamedAppend(ExprOccs(e), CasesOccs(cases), x); RenamedAppend(ExprOccs(e) + CasesOccs(cases), StmtsOccs(d), x);
  }

  lemma {:induction false} ReplaceCasesOccs(cases: seq<SwitchCase>, x: string)
    ensures CasesOccs(ReplaceCases(cases, x)) == Renamed(CasesOccs(cases), x)
    decreases cases, 0
  {
    if cases != [] {
      var c := cases[0];
      ReplaceExprsOccs(c.values, x); ReplaceStmtsOccs(c.body, x); ReplaceCasesOccs(cases[1..], x);
      RenamedAppend(ExprsOccs(c.values), StmtsOccs(c.body), x);
      RenamedAppend(ExprsOccs(c.values) + StmtsOccs(c.body), CasesOccs(cases[1..]), x);
    }
  }

  /** The reference test finds exactly the uses outside lambda parameter defaults. */
  lemma {:induction false} ExprReferencesIffUsed(e: Expr, x: string)
    ensures ExprReferences(e, x) <==> Use(x) in ExprOccs(e)
    decreases e, 0
  {
    match e
    case Binary(_, l, r, _, _) => ExprReferencesIffUsed(l, x); ExprReferencesIffUsed(r, x);
    case Conditional(c, t, f, _, _) =>
      ExprReferencesIffUsed(c, x); ExprReferencesIffUsed(t, x); ExprReferencesIffUsed(f, x);
    case Is(o, _, _) => ExprReferencesIffUsed(o, x);
    case AssignExpr(t, v, _, _) => ExprReferencesIffUsed(t, x); ExprReferencesIffUsed(v, x);
    case FieldAccess(t, _, _, _) => ExprReferencesIffUsed(t, x);
    case Call(receiver, _, _, _, args, _, _) =>
      if receiver.Some? { ExprReferencesIffUsed(receiver.value, x); }
      ExprsReferenceIffUsed(args, x);
    case RecordConstruct(_, _, _, args, _) => ExprsReferenceIffUsed(args, x);
    case RecordCopy(t, _, _, _) => ExprReferencesIffUsed(t, x);
    case ConstructorCall(_, _, _, args, _) => ExprsReferenceIffUsed(args, x);
    case Lambda(params, body, _, _) => StmtsReferenceIffUsed(body, x); ParamsNeverUse(params, x);
    case _ =>
  }

  lemma {:induction false} ExprsReferenceIffUsed(es: seq<Expr>, x: string)
    ensures ExprsReference(es, x) <==> Use(x) in ExprsOccs(es)
    decreases es, 0
  {
    if es != [] { ExprReferencesIffUsed(es[0], x); ExprsReferenceIffUsed(es[1..], x); }
  }

  lemma TaggedNeverUse(os: seq<Occ>, x: string)
    ensures Use(x) !in Tagged(os)
  {
  }

  lemma {:induction false} ParamsNeverUse(params: seq<Param>, x: string)
    ensures Use(x) !in ParamOccs(params)
    decreases params
  {
    if params != [] {
      if params[0].defaultValue.Some? { TaggedNeverUse(ExprOccs(params[0].defaultValue.value), x); }
      ParamsNeverUse(params[1..], x);
    }
  }

  lemma {:induction false} StmtsReferenceIffUsed(ss: seq<Stmt>, x: string)
    ensures StmtsReference(ss, x) <==> Use(x) in StmtsOccs(ss)
    decreases ss, 0
  {
    if ss != [] { StmtReferencesIffUsed(ss[0], x); StmtsReferenceIffUsed(ss[1..], x); }
  }

  lemma {:induction false} StmtReferencesIffUsed(s: Stmt, x: string)
    ensures StmtReferences(s, x) <==> Use(x) in StmtOccs(s)
    decreases s, 0
  {
    match s
    case Return(e) => if e.Some? { ExprReferencesIffUsed(e.value, x); }
    case VarDecl(_, _, e) => if e.Some? { ExprReferencesIffUsed(e.value, x); }
    case Assign(_, e) => ExprReferencesIffUsed(e, x);
    case FieldAssign(t, _, e) => ExprReferencesIffUsed(t, x); ExprReferencesIffUsed(e, x);
    case If(c, t, f) => ExprReferencesIffUsed(c, x); StmtsReferenceIffUsed(t, x); StmtsReferenceIffUsed(f, x);
    case While(c, b) => ExprReferencesIffUsed(c, x); StmtsReferenceIffUsed(b, x);
    case DoWhile(b, c) => ExprReferencesIffUsed(c, x); StmtsReferenceIffUsed(b, x);
    case For(i, c, n, b) =>
      if i.Some? { StmtReferencesIffUsed(i.value, x); }
      if c.Some? { ExprReferencesIffUsed(c.value, x); }
      if n.Some? { StmtReferencesIffUsed(n.value, x); }
      StmtsReferenceIffUsed(b, x);
    case ForEach(_, _, e, b) => ExprReferencesIffUsed(e, x); StmtsReferenceIffUsed(b, x);
    case ExprStmt(e) => ExprReferencesIffUsed(e, x);
    case Throw(e) => ExprReferencesIffUsed(e, x);
    case TryCatch(t, _, _, c) => StmtsReferenceIffUsed(t, x); StmtsReferenceIffUsed(c, x);
    case TryFinally(t, f) => StmtsReferenceIffUsed(t, x); StmtsReferenceIffUsed(f, x);
    case Switch(e, cases, _, d) =>
      ExprReferencesIffUsed(e, x);
      CasesReferenceIffUsed(cases, x);
      StmtsReferenceIffUsed(d, x);
    case _ =>
  }

  lemma {:induction false} CasesReferenceIffUsed(cases: seq<SwitchCase>, x: string)
    ensures CasesReference(cases, x) <==> Use(x) in CasesOccs(cases)
    decreases cases, 0
  {
    if cases != [] {
      ExprsReferenceIffUsed(cases[0].values, x);
      StmtsReferenceIffUsed(cases[0].body, x);
      CasesReferenceIffUsed(cases[1..], x);
    }
  }

  // ----- and to the body -----

  predicate ThisMade(x: string, e: Expr, d: Expr) {
    d == if e.This? then Ref(x, e.ty, e.origin) else e
  }

  /** `this` becomes the local, at every node outside lambda parameters, and nothing else changes. */
  ghost function ThisTo(x: string): Rule {
    Rule((t, u) => t == u, (usr, s, z) => s == z, (e, d) => ThisMade(x, e, d), false)
  }

  lemma ReplacedNode(e: Expr, x: string, mid: Expr, d: Expr)
    requires ExprInside(ThisTo(x), e, mid) && ThisMade(x, mid, d)
    ensures ExprTo(ThisTo(x), e, d)
  {
    assert ThisTo(x).node(mid, d);
  }

  lemma {:induction false} ReplacedExpr(e: Expr, x: string)
    ensures ExprTo(ThisTo(x), e, ReplaceExpr(e, x))
    decreases e, 2
  {
    if e.Binary? || e.Conditional? || e.AssignExpr? || e.Call? {
      ReplacedOperands(e, x);
    } else {
      ReplacedOther(e, x);
    }
  }

  lemma {:induction false} ReplacedOther(e: Expr, x: string)
    requires !(e.Binary? || e.Conditional? || e.AssignExpr? || e.Call?)
    ensures ExprTo(ThisTo(x), e, ReplaceExpr(e, x))
    decreases e, 1
  {
    match e {
      case Is(o, ty, _) => TypeKept(ThisTo(x), ty); ReplacedExpr(o, x);
      case FieldAccess(t, _, ty, _) => TypeKept(ThisTo(x), ty); ReplacedExpr(t, x);
      case RecordConstruct(_, _, _, args, _) => ReplacedExprs(args, x);
      case RecordCopy(t, _, _, _) => ReplacedExpr(t, x);
      case ConstructorCall(_, _, _, args, _) => ReplacedExprs(args, x);
      case Lambda(_, body, ty, _) => TypeKept(ThisTo(x), ty); ReplacedStmts(body, x);
      case Ref(_, ty, _) => TypeKept(ThisTo(x), ty);
      case This(ty, _) => TypeKept(ThisTo(x), ty);
      case UnsupportedTyped(_, ty, _) => TypeKept(ThisTo(x), ty);
      case _ =>
    }
    ReplacedNode(e, x, if e.This? then e else ReplaceExpr(e, x), ReplaceExpr(e, x));
  }

  lemma {:induction false} ReplacedOperands(e: Expr, x: string)
    requires e.Binary? || e.Conditional? || e.AssignExpr? || e.Call?
    ensures ExprTo(ThisTo(x), e, ReplaceExpr(e, x))
    decreases e, 1
  {
    TypeKept(ThisTo(x), e.ty);
    match e {
      case Binary(_, l, r, _, _) => ReplacedExpr(l, x); ReplacedExpr(r, x);
      case Conditional(c, t, f, _, _) => ReplacedExpr(c, x); ReplacedExpr(t, x); ReplacedExpr(f, x);
      case AssignExpr(t, v, _, _) => ReplacedExpr(t, x); ReplacedExpr(v, x);
      case Call(receiver, _, _, _, args, _, _) =>
        if receiver.Some? { ReplacedExpr(receiver.value, x); }
        ReplacedExprs(args, x);
    }
    ReplacedNode(e, x, ReplaceExpr(e, x), ReplaceExpr(e, x));
  }

  lemma {:induction false} ReplacedExprs(es: seq<Expr>, x: string)
    ensures ExprsTo(ThisTo(x), es, ReplaceExprs(es, x))
    decreases es, 0
  {
    if es != [] {
      ReplacedExpr(es[0], x); ReplacedExprs(es[1..], x);
      assert ReplaceExprs(es, x)[1..] == ReplaceExprs(es[1..], x);
    }
  }

  lemma {:induction false} ReplacedOption(e: Option<Expr>, x: string)
    ensures OptionTo(ThisTo(x), e, if e.Some? then Some(ReplaceExpr(e.value, x)) else None)
    decreases e, 0
  {
    if e.Some? { ReplacedExpr(e.value, x); }
  }

  /** The copy of a destructor is the destructor with each `this` outside lambda parameters made the
      local, and with no other difference. */
  lemma {:induction false} ReplacedStmts(ss: seq<Stmt>, x: string)
    ensures StmtsTo(ThisTo(x), ss, ReplaceStmts(ss, x))
    decreases ss, 0
  {
    if ss != [] {
      ReplacedStmt(ss[0], x); ReplacedStmts(ss[1..], x);
      assert ReplaceStmts(ss, x)[1..] == ReplaceStmts(ss[1..], x);
    }
  }

  lemma {:induction false} ReplacedStmt(s: Stmt, x: string)
    ensures StmtTo(ThisTo(x), s, ReplaceStmt(s, x))
    decreases s, 1
  {
    if s.If? || s.While? || s.DoWhile? || s.For? || s.ForEach? || s.TryCatch? || s.TryFinally? || s.Switch? {
      ReplacedBlock(s, x);
    } else {
      match s
      case Return(e) => ReplacedOption(e, x);
      case VarDecl(_, ty, e) => TypeKept(ThisTo(x), ty); ReplacedOption(e, x);
      case Assign(_, e) => ReplacedExpr(e, x);
      case FieldAssign(t, _, e) => ReplacedExpr(t, x); ReplacedExpr(e, x);
      case ExprStmt(e) => ReplacedExpr(e, x);
      case Throw(e) => ReplacedExpr(e, x);
      case _ =>
    }
  }

  lemma {:induction false} ReplacedBlock(s: Stmt, x: string)
    requires s.If? || s.While? || s.DoWhile? || s.For? || s.ForEach? || s.TryCatch? || s.TryFinally? || s.Switch?
    ensures StmtTo(ThisTo(x), s, ReplaceStmt(s, x))
    decreases s, 0
  {
    match s
    case If(c, t, f) => ReplacedExpr(c, x); ReplacedStmts(t, x); ReplacedStmts(f, x);
    case While(c, b) => ReplacedExpr(c, x); ReplacedStmts(b, x);
    case DoWhile(b, c) => ReplacedStmts(b, x); ReplacedExpr(c, x);
    case For(i, c, n, b) =>
      if i.Some? { ReplacedStmt(i.value, x); }
      ReplacedOption(c, x);
      if n.Some? { ReplacedStmt(n.value, x); }
      ReplacedStmts(b, x);
    case ForEach(_, ty, e, b) => TypeKept(ThisTo(x), ty); ReplacedExpr(e, x); ReplacedStmts(b, x);
    case TryCatch(t, ty, _, c) => TypeKept(ThisTo(x), ty); ReplacedStmts(t, x); ReplacedStmts(c, x);
    case TryFinally(t, f) => ReplacedStmts(t, x); ReplacedStmts(f, x);
    case Switch(e, cases, _, d) => ReplacedExpr(e, x); ReplacedCases(cases, x); ReplacedStmts(d, x);
  }

  lemma {:induction false} ReplacedCases(cases: seq<SwitchCase>, x: string)
    ensures CasesTo(ThisTo(x), cases, ReplaceCases(cases, x))
    decreases cases, 0
  {
    if cases != [] {
      ReplacedExprs(cases[0].values, x); ReplacedStmts(cases[0].body, x); ReplacedCases(cases[1..], x);
      assert ReplaceCases(cases, x)[1..] == ReplaceCases(cases[1..], x);
    }
  }
}
