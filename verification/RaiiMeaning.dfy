/**
 The scope-guard rewrite means what the C++ function meant: whatever way the
 body is left, the destructor has run once, on the guarded object, afterwards.
 */
module RaiiMeaning {
  import opened Wrappers
  import opened Ir
  import opened Occurrences
  import opened Interp
  import opened Raii
  import opened Simulation
  import opened Frames

  /** What is left of a function call once its frames are gone. */
  datatype Final = Final(st: Store, out: Outcome)

  function Run(w: World, fuel: nat, body: seq<Stmt>, params: Frame, st: Store): Final {
    var r := ExecStmts(w, fuel, body, [params], st, None);
    Final(r.st, r.out)
  }

  /** The C++ meaning of a body whose local declared at `i` is destroyed at scope exit: once the
      declaration has completed, the destructor's body runs on the declared object, in frames of
      its own, however the rest of the body ends. */
  function RunScoped(w: World, fuel: nat, body: seq<Stmt>, i: nat, dtor: seq<Stmt>, params: Frame, st: Store): Final
    requires i < |body| && body[i].VarDecl?
  {
    var before := ExecStmts(w, fuel, body[..i], [params], st, None);
    if !before.out.Normal? then Final(before.st, before.out)
    else
      var declared := ExecStmt(w, fuel, body[i], before.env, before.st, None);
      if !declared.out.Normal? then Final(declared.st, declared.out)
      else
        var after := ExecStmts(w, fuel, body[i + 1..], declared.env, declared.st, None);
        Destroyed(w, fuel, dtor, Lookup(declared.env, body[i].name), after)
  }

  function Destroyed(w: World, fuel: nat, dtor: seq<Stmt>, guarded: Option<Value>, after: Res): Final {
    if after.out.OutOfFuel? then Final(after.st, after.out)
    else
      var d := ExecStmts(w, fuel, dtor, [map[]], after.st, guarded);
      Final(d.st, if d.out.Normal? || d.out.Returned? then after.out else d.out)
  }

  /** What a caller has to check of a body before guarding the local declared at `i`. */
  ghost predicate Guardable(body: seq<Stmt>, i: nat, dtor: seq<Stmt>, params: Frame)
    requires i < |body| && body[i].VarDecl?
  {
    && Clean(body[i].name, body[i + 1..], dtor)
    && MentionedNames(StmtsOccs(dtor)) !! params.Keys + DeclaredNames(StmtsOccs(body[..i]))
  }

  /** The destructor does not return, leaves `this` alone in lambda parameter defaults
      and does not mention the guard `x`; the rest never assigns `x`, and mentions it in
      lambda parameter defaults only if something else does. */
  ghost predicate Clean(x: string, rest: seq<Stmt>, dtor: seq<Stmt>) {
    var os := StmtsOccs(dtor);
    && !Returns(dtor)
    && (forall o | o in os :: !o.PutSelf? && (o.InDefault? ==> !IsSelf(o)))
    && x !in MentionedNames(os) && Decl(x) !in os
    && Put(x) !in StmtsOccs(rest)
    && (!BindingUsed(x, rest, dtor) ==> x !in MentionedNames(StmtsOccs(rest)))
  }

  lemma {:induction false} ExecAppend(w: World, fuel: nat, a: seq<Stmt>, b: seq<Stmt>, env: Env, st: Store,
                                      self: Option<Value>)
    ensures ExecStmts(w, fuel, a + b, env, st, self)
         == var r := ExecStmts(w, fuel, a, env, st, self);
            if r.out.Normal? then ExecStmts(w, fuel, b, r.env, r.st, self) else r
  {
    if a == [] {
      assert a + b == b;
    } else {
      assert (a + b)[1..] == a[1..] + b;
      var r := ExecStmt(w, fuel, a[0], env, st, self);
      ExecAppend(w, fuel, a[1..], b, r.env, r.st, self);
    }
  }

  /** A function the pass has guarded gives the store, the trace in it and the outcome of the
      original with the destructor of its first guarded local run at scope exit, at every fuel. */
  lemma GuardPreservesMeaning(w: World, fuel: nat, records: seq<Record>, before: seq<Stmt>, after: seq<Stmt>,
                              i: nat, k: nat, params: Frame, st: Store)
    requires GuardedAs(records, before, after)
    requires FirstGuard(records, before, i) && Destroys(records, before[i].ty.usr, k)
    requires Guardable(before, i, records[k].destructor.value, params)
    ensures Run(w, fuel, after, params, st)
         == RunScoped(w, fuel, before, i, records[k].destructor.value, params, st)
  {
    assert SplitAt(before, i, records[k].destructor.value, after);
    SplitSplices(before, i, records[k].destructor.value, after);
    SplicedRuns(w, fuel, before[..i], before[i], before[i + 1..], records[k].destructor.value, params, st);
  }

  lemma SplitSplices(before: seq<Stmt>, i: nat, dtor: seq<Stmt>, after: seq<Stmt>)
    requires i < |before| && before[i].VarDecl? && SplitAt(before, i, dtor, after)
    ensures after == before[..i] + GuardedFrom(before[i], before[i + 1..], dtor)
  {
    GuardedFromMeetsSpec(before[i], before[i + 1..], dtor);
    assert after == after[..i] + after[i..];
  }

  lemma SplicedRuns(w: World, fuel: nat, prefix: seq<Stmt>, decl: Stmt, rest: seq<Stmt>, dtor: seq<Stmt>,
                    params: Frame, st: Store)
    requires decl.VarDecl? && Clean(decl.name, rest, dtor)
    requires MentionedNames(StmtsOccs(dtor)) !! params.Keys + DeclaredNames(StmtsOccs(prefix))
    ensures var b := ExecStmts(w, fuel, prefix, [params], st, None);
            Run(w, fuel, prefix + GuardedFrom(decl, rest, dtor), params, st)
            == if !b.out.Normal? then Final(b.st, b.out)
               else
                 var d := ExecStmt(w, fuel, decl, b.env, b.st, None);
                 if !d.out.Normal? then Final(d.st, d.out)
                 else Destroyed(w, fuel, dtor, Lookup(d.env, decl.name), ExecStmts(w, fuel, rest, d.env, d.st, None))
  {
    ExecAppend(w, fuel, prefix, GuardedFrom(decl, rest, dtor), [params], st, None);
    var b := ExecStmts(w, fuel, prefix, [params], st, None);
    if b.out.Normal? {
      PrefixFrame(w, fuel, prefix, params, st, MentionedNames(StmtsOccs(dtor)));
      TailPreserved(w, fuel, decl, rest, dtor, b.env[0], b.st);
      assert b.env == [b.env[0]];
    }
  }

  /** Names neither passed nor declared before the guard are not in the frame it meets. */
  lemma PrefixFrame(w: World, fuel: nat, prefix: seq<Stmt>, params: Frame, st: Store, names: set<string>)
    requires names !! params.Keys + DeclaredNames(StmtsOccs(prefix))
    ensures var env := ExecStmts(w, fuel, prefix, [params], st, None).env; |env| == 1 && names !! env[0].Keys
  {
    var env := ExecStmts(w, fuel, prefix, [params], st, None).env;
    StmtsKeep(Watch("", true, true), w, fuel, prefix, [params], st, None);
    forall n | n in names ensures n !in env[0] {
      assert forall o | o in StmtsOccs(prefix) && o.Decl? :: o.name in DeclaredNames(StmtsOccs(prefix));
      assert Decl(n) !in StmtsOccs(prefix);
      StmtsKeep(Watch(n, true, false), w, fuel, prefix, [params], st, None);
    }
  }

  /** The part from the guard on, run in the single frame `f`. */
  lemma TailPreserved(w: World, fuel: nat, decl: Stmt, rest: seq<Stmt>, dtor: seq<Stmt>, f: Frame, st: Store)
    requires decl.VarDecl? && Clean(decl.name, rest, dtor)
    requires MentionedNames(StmtsOccs(dtor)) !! f.Keys
    ensures Run(w, fuel, GuardedFrom(decl, rest, dtor), f, st)
         == var d := ExecStmt(w, fuel, decl, [f], st, None);
            if !d.out.Normal? then Final(d.st, d.out)
            else Destroyed(w, fuel, dtor, Lookup(d.env, decl.name), ExecStmts(w, fuel, rest, d.env, d.st, None))
  {
    var x := decl.name;
    var last := ReplaceStmts(dtor, x);
    var guard := TryFinally(rest, last);
    var kept := StmtsReference(rest, x) || StmtsReference(last, x);
    var init := if decl.init.Some? then EvalExpr(w, decl.init.value, [f], st, None) else ERes([f], st, Val(NullV));
    if decl.init.Some? { ExprKeeps(Watch("", true, true), w, decl.init.value, [f], st, None); }
    if init.r.Err? {
      InitFails(w, fuel, decl, kept, guard, f, st);
      return;
    }
    var g := init.env[0];
    assert init.env == [g] && g.Keys == f.Keys by {
      if decl.init.Some? { assert Watch("", true, true).FrameKept([f][0], init.env[0]); }
    }
    var bound := g[x := init.r.v];
    var d := ExecStmt(w, fuel, decl, [f], st, None);
    assert d == Res([bound], init.st, Normal);
    var g' := if kept then bound else g;
    BindingRuns(w, fuel, decl, kept, guard, f, st);
    GuardRuns(w, fuel, x, kept, rest, dtor, bound, g', init.st, init.r.v);
  }

  function Binding(decl: Stmt, kept: bool): seq<Stmt>
    requires decl.VarDecl?
  {
    if kept then [decl] else if decl.init.Some? then [ExprStmt(decl.init.value)] else []
  }

  lemma InitFails(w: World, fuel: nat, decl: Stmt, kept: bool, guard: Stmt, f: Frame, st: Store)
    requires decl.VarDecl? && decl.init.Some? && EvalExpr(w, decl.init.value, [f], st, None).r.Err?
    ensures var v := EvalExpr(w, decl.init.value, [f], st, None);
            Run(w, fuel, Binding(decl, kept) + [guard], f, st) == Final(v.st, Threw(v.r.thrown))
  {
    var first := Binding(decl, kept)[0];
    assert (Binding(decl, kept) + [guard])[0] == first;
    assert !ExecStmt(w, fuel, first, [f], st, None).out.Normal?;
  }

  /** Whether or not the binding is kept, the guard runs after the initializer has. */
  lemma BindingRuns(w: World, fuel: nat, decl: Stmt, kept: bool, guard: Stmt, f: Frame, st: Store)
    requires decl.VarDecl?
    requires decl.init.Some? ==> EvalExpr(w, decl.init.value, [f], st, None).r.Val?
    requires decl.init.Some? ==> |EvalExpr(w, decl.init.value, [f], st, None).env| == 1
    ensures var v := if decl.init.Some? then EvalExpr(w, decl.init.value, [f], st, None) else ERes([f], st, Val(NullV));
            var g := if kept then v.env[0][decl.name := v.r.v] else v.env[0];
            var r := ExecStmt(w, fuel, guard, [g], v.st, None);
            Run(w, fuel, Binding(decl, kept) + [guard], f, st) == Final(r.st, r.out)
  {
    var v := if decl.init.Some? then EvalExpr(w, decl.init.value, [f], st, None) else ERes([f], st, Val(NullV));
    var g := if kept then v.env[0][decl.name := v.r.v] else v.env[0];
    ExecAppend(w, fuel, Binding(decl, kept), [guard], [f], st, None);
    var b := ExecStmts(w, fuel, Binding(decl, kept), [f], st, None);
    assert b == Res([g], v.st, Normal) by {
      assert Declare(v.env, decl.name, v.r.v) == [v.env[0][decl.name := v.r.v]];
      assert v.env == [v.env[0]];
      if Binding(decl, kept) != [] { assert Binding(decl, kept)[1..] == []; }
    }
    SingleStmt(w, fuel, guard, [g], v.st, None);
  }

  lemma SingleStmt(w: World, fuel: nat, s: Stmt, env: Env, st: Store, self: Option<Value>)
    ensures ExecStmts(w, fuel, [s], env, st, self) == ExecStmt(w, fuel, s, env, st, self)
  {
    var r := ExecStmt(w, fuel, s, env, st, self);
    assert [s][1..] == [];
    assert r.out.Normal? ==> ExecStmts(w, fuel, [], r.env, r.st, self) == Res(r.env, r.st, Normal);
  }

  /** The `try` block stands for the rest of the body and the `finally` block for the destructor. */
  lemma GuardRuns(w: World, fuel: nat, x: string, kept: bool, rest: seq<Stmt>, dtor: seq<Stmt>,
                  bound: Frame, g: Frame, st: Store, guarded: Value)
    requires Clean(x, rest, dtor)
    requires kept <==> StmtsReference(rest, x) || StmtsReference(ReplaceStmts(dtor, x), x)
    requires bound == g[x := guarded] && (kept ==> g == bound)
    requires MentionedNames(StmtsOccs(dtor)) !! g.Keys - {x}
    ensures var r := ExecStmt(w, fuel, TryFinally(rest, ReplaceStmts(dtor, x)), [g], st, None);
            Final(r.st, r.out)
            == Destroyed(w, fuel, dtor, Lookup([bound], x), ExecStmts(w, fuel, rest, [bound], st, None))
  {
    KeptIffUsed(x, rest, dtor);
    RestRuns(w, fuel, x, kept, rest, dtor, bound, g, st);
    var t := ExecBlock(w, fuel, rest, map[], [g], st, None);
    if !t.out.OutOfFuel? {
      assert t.env == [t.env[0]];
      DestructorRuns(w, fuel, x, kept, dtor, t.env[0], t.st, guarded);
    }
  }

  lemma KeptIffUsed(x: string, rest: seq<Stmt>, dtor: seq<Stmt>)
    ensures StmtsReference(rest, x) || StmtsReference(ReplaceStmts(dtor, x), x) <==> BindingUsed(x, rest, dtor)
  {
    StmtsReferenceIffUsed(rest, x);
    StmtsReferenceIffUsed(ReplaceStmts(dtor, x), x);
    ReplaceStmtsOccs(dtor, x);
    UsedOnceRenamed(StmtsOccs(dtor), x);
  }

  lemma FitsNames(p: Pairing, os: seq<Occ>)
    requires p.guard.None? && MentionedNames(os) <= p.used
    ensures p.Fits(os)
  {
    forall o | o in os ensures p.FitsOne(o) {
      MentionedIn(os, o);
      FitsNamesOne(p, o);
    }
  }

  lemma FitsNamesOne(p: Pairing, o: Occ)
    requires p.guard.None? && Mentioned(o) <= p.used
    ensures p.FitsOne(o) && p.FitsDefault(o)
  {
    if o.InDefault? { FitsNamesOne(p, o.inner); }
  }

  lemma RestRuns(w: World, fuel: nat, x: string, kept: bool, rest: seq<Stmt>, dtor: seq<Stmt>, bound: Frame, g: Frame,
                 st: Store)
    requires Clean(x, rest, dtor)
    requires kept <==> BindingUsed(x, rest, dtor)
    requires x in bound && bound == g[x := bound[x]] && (kept ==> g == bound)
    ensures var t, r := ExecBlock(w, fuel, rest, map[], [g], st, None), ExecStmts(w, fuel, rest, [bound], st, None);
            && t.st == r.st && t.out == r.out
            && |t.env| == 1 && t.env[0].Keys == g.Keys
            && (kept ==> t.env[0][x] == bound[x])
  {
    var os := StmtsOccs(rest);
    var p := Pairing(MentionedNames(os), None, false, None, None);
    FitsNames(p, os);
    var e1, e2 := [bound], [map[]] + [g];
    forall n | n in p.used ensures Lookup(e1, n) == Lookup(e2, n) {
      assert e2[1..] == [g];
      assert Lookup([g], n) == if n in g then Some(g[n]) else Lookup([g][1..], n);
    }
    SimStmts(p, w, fuel, rest, e1, e2, 0, st);
    var q := Watch(x, false, true);
    BlockKeeps(q, w, fuel, rest, map[], [g], st, None);
    var t := ExecBlock(w, fuel, rest, map[], [g], st, None);
    assert q.FrameKept([g][0], t.env[0]);
  }

  /** In the `finally` block the guard stands for `this`. */
  lemma DestructorRuns(w: World, fuel: nat, x: string, kept: bool, dtor: seq<Stmt>, g: Frame, st: Store, guarded: Value)
    requires !Returns(dtor)
    requires forall o | o in StmtsOccs(dtor) :: !o.PutSelf? && (o.InDefault? ==> !IsSelf(o))
    requires x !in MentionedNames(StmtsOccs(dtor)) && Decl(x) !in StmtsOccs(dtor)
    requires !kept ==> !StmtsReference(ReplaceStmts(dtor, x), x)
    requires kept ==> x in g && g[x] == guarded
    requires MentionedNames(StmtsOccs(dtor)) !! g.Keys - {x}
    ensures var f, d := ExecBlock(w, fuel, ReplaceStmts(dtor, x), map[], [g], st, None),
                        ExecStmts(w, fuel, dtor, [map[]], st, Some(guarded));
            f.st == d.st && f.out == d.out && !d.out.Returned?
  {
    var os := StmtsOccs(dtor);
    var p := Pairing(MentionedNames(os), Some(x), kept, Some(guarded), None);
    ReplaceStmtsOccs(dtor, x);
    StmtsReferenceIffUsed(ReplaceStmts(dtor, x), x);
    forall o | o in os ensures p.FitsOne(o) {
      MentionedIn(os, o);
      if o.InDefault? { FitsDefaultNames(p, o.inner); }
      if o.Self? && !kept { SelfBecomesUse(os, x); }
    }
    var e1, e2 := [map[]], [map[]] + [g];
    forall n ensures n in p.used ==> Lookup(e1, n) == Lookup(e2, n)
             ensures n == x && kept ==> Lookup(e2, n) == Some(guarded) {
      assert e2[1..] == [g] && e1[1..] == [] && [g][1..] == [];
      assert Lookup([g], n) == if n in g then Some(g[n]) else Lookup([], n);
    }
    SimStmts(p, w, fuel, dtor, e1, e2, 0, st);
    StmtsKeep(Watch("", true, true), w, fuel, dtor, [map[]], st, Some(guarded));
  }

  lemma FitsDefaultNames(p: Pairing, o: Occ)
    requires Mentioned(o) <= p.used && !IsSelf(o)
    ensures p.FitsDefault(o)
  {
    if o.InDefault? { FitsDefaultNames(p, o.inner); }
  }

  lemma SelfBecomesUse(os: seq<Occ>, x: string)
    requires Self in os
    ensures Use(x) in Renamed(os, x)
  {
    if os[0] != Self { SelfBecomesUse(os[1..], x); }
  }
}
