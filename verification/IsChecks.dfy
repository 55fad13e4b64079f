/**
 The simplification of `this is T ? e : null` to `e` where `T` is an ancestor of
 the enclosing record, and why it changes nothing a run can observe.
 */
module IsChecks {
  import opened Wrappers
  import opened Ir
  import opened Visitor
  import opened Interp
  import opened Reachability

  predicate ProvablyTrue(e: Expr, ancestors: set<string>) {
    && e.Conditional? && e.condition.Is? && e.condition.operand.This?
    && e.condition.targetType.Record? && e.condition.targetType.usr in ancestors
    && e.elseExpr.NullLiteral?
  }

  function SimplifyOne(e: Expr, ancestors: set<string>): Expr {
    if ProvablyTrue(e, ancestors) then e.thenExpr else e
  }

  function CheckHooks(ancestors: set<string>): Hooks {
    Hooks(SameType, SameSite, e => SimplifyOne(e, ancestors))
  }

  function SimplifyStmts(ss: seq<Stmt>, ancestors: set<string>): seq<Stmt> {
    VisitStmts(CheckHooks(ancestors), ss)
  }

  /** The pass over one record: its constructors, methods and destructor, in its own ancestry. */
  function SimplifyRecord(r: Record, ancestors: set<string>): Record {
    r.(constructors := SimplifyConstructors(r.constructors, ancestors),
       methods := SimplifyMethods(r.methods, ancestors),
       destructor := if r.destructor.Some? then Some(SimplifyStmts(r.destructor.value, ancestors)) else None)
  }

  function SimplifyConstructors(cs: seq<Constructor>, ancestors: set<string>): seq<Constructor> {
    if cs == [] then []
    else [cs[0].(body := SimplifyStmts(cs[0].body, ancestors))] + SimplifyConstructors(cs[1..], ancestors)
  }

  function SimplifyMethods(ms: seq<Method>, ancestors: set<string>): seq<Method> {
    if ms == [] then []
    else
      var m := ms[0];
      [m.(body := if m.body.Some? then Some(SimplifyStmts(m.body.value, ancestors)) else None)]
      + SimplifyMethods(ms[1..], ancestors)
  }

  // ----- who may be `this` -----

  /** An object of dynamic class `cls`, in a world where class membership is
      inheritance along `g` and no call changes an existing object's class. */
  datatype Receiver = Receiver(w: World, g: Graph, id: nat, cls: string)
  {
    ghost predicate Alive(st: Store) {
      id in st.heap && st.heap[id].cls == cls
    }

    ghost predicate Valid() {
      && (forall c, t :: w.subclass(c, t) <==> c == t || Reaches(g, c, t))
      && (forall site, target, vs, st :: Alive(st) ==> Alive(w.invoke(site, target, vs, st).st))
    }

    /** The receiver is the record or inherits from it. */
    ghost predicate InstanceOf(usr: string) {
      cls == usr || Reaches(g, cls, usr)
    }

    function Self(): Option<Value> { Some(ObjV(id)) }
  }

  ghost predicate AncestorsOf(g: Graph, usr: string, ancestors: set<string>) {
    forall v :: v in ancestors <==> Reaches(g, usr, v)
  }

  /** One check, on any receiver of the record's type or a subtype: same result, same effects. */
  lemma CheckIsTrue(k: Receiver, usr: string, ancestors: set<string>, e: Expr, env: Env, st: Store)
    requires k.Valid() && k.Alive(st) && k.InstanceOf(usr) && AncestorsOf(k.g, usr, ancestors)
    ensures EvalExpr(k.w, SimplifyOne(e, ancestors), env, st, k.Self()) == EvalExpr(k.w, e, env, st, k.Self())
  {
    if ProvablyTrue(e, ancestors) {
      var t := e.condition.targetType.usr;
      assert Reaches(k.g, usr, t);
      if k.cls != usr { ReachesTransitive(k.g, k.cls, usr, t); }
      assert IsA(k.w, st, ObjV(k.id), e.condition.targetType);
      assert EvalExpr(k.w, e.condition, env, st, k.Self()) == ERes(env, st, Val(BoolV(true)));
    }
  }

  /** Nothing of the kind holds for a class outside the ancestry: the check can fail, and then yields null. */
  lemma OutsideTheAncestryTheCheckMatters(k: Receiver, usr: string, t: string, env: Env, st: Store)
    requires k.Valid() && k.Alive(st) && k.cls == usr && t != usr && !Reaches(k.g, usr, t)
    ensures var self := This(Type.Record(usr, usr), Origin("", 0, 0));
            var e := Conditional(Is(self, Type.Record(t, t), self.origin), self, NullLiteral(self.origin), self.ty,
                                 self.origin);
            && EvalExpr(k.w, e, env, st, k.Self()).r == Val(NullV)
            && EvalExpr(k.w, SimplifyOne(e, {t}), env, st, k.Self()).r == Val(ObjV(k.id))
  {
    var self := This(Type.Record(usr, usr), Origin("", 0, 0));
    var check := Is(self, Type.Record(t, t), self.origin);
    assert EvalExpr(k.w, check, env, st, k.Self()).r == Val(BoolV(false));
  }
}
