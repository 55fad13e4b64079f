/**
 What the mixin rewrite leaves, record by record and body by body, said without
 the functions that compute it: which fields change, which siblings and factories
 appear, where they lead, and what is left in every body.
 */
module MixinOutcome {
  import opened Wrappers
  import opened Ir
  import opened Strings
  import opened Visitor
  import opened Everywhere
  import opened Rewriting
  import opened Reachability
  import opened MixinForms
  import opened MixinSites
  import IsChecks

  // ----- bodies -----

  function FactoryText(k: nat): string {
    if k == 0 then "create" else "create" + Numeral(k + 1)
  }

  /** A construction of a mixin names the factory of its index; every other keeps its name and index. */
  ghost predicate SiteTo(x: Input, usr: string, s: Site, z: Site) {
    && (forall i | x.Built(i) && x.rs[i].usr == usr ::
          z == Site(x.rs[i].name + "." + FactoryText(if s.index.Some? then s.index.value else 0),
                    if s.index.Some? then Some(0) else None))
    && ((forall i | x.Built(i) :: x.rs[i].usr != usr) ==> z == s)
  }

  ghost function Sites(x: Input): Rule {
    Rule((t, u) => t == u, (usr, s, z) => SiteTo(x, usr, s, z), (e, d) => e == d, true)
  }

  /** `this is T ? d : null`, where T is something `usr` is built from. */
  ghost predicate AlwaysTrue(rs: seq<Record>, usr: string, e: Expr) {
    && e.Conditional? && e.condition.Is? && e.condition.operand.This? && e.elseExpr.NullLiteral?
    && e.condition.targetType.Record? && Reaches(BaseGraph(rs), usr, e.condition.targetType.usr)
  }

  ghost predicate CheckTo(rs: seq<Record>, usr: string, e: Expr, d: Expr) {
    d == if AlwaysTrue(rs, usr, e) then e.thenExpr else e
  }

  ghost function Checks(rs: seq<Record>, usr: string): Rule {
    Rule((t, u) => t == u, (u, s, z) => s == z, (e, d) => CheckTo(rs, usr, e, d), true)
  }

  /** First its construction sites are rewritten, then its always-true checks are dropped. */
  ghost predicate BodyTo(x: Input, usr: string, before: seq<Stmt>, after: seq<Stmt>) {
    exists mid :: StmtsTo(Sites(x), before, mid) && StmtsTo(Checks(x.rs, usr), mid, after)
  }

  ghost predicate OptionalTo(x: Input, usr: string, before: Option<seq<Stmt>>, after: Option<seq<Stmt>>) {
    after.Some? == before.Some? && (before.Some? ==> BodyTo(x, usr, before.value, after.value))
  }

  ghost function NoCheck(rs: seq<Record>, usr: string): Check {
    Check(e => !AlwaysTrue(rs, usr, e), t => true)
  }

  // ----- siblings and factories -----

  /** A record's constructors, or where it has none the one that fills its fields. */
  ghost predicate Own(r: Record, cs: seq<Constructor>) {
    if r.constructors != [] then cs == r.constructors
    else |cs| == 1 && Fills(r, cs[0])
  }

  ghost predicate Fills(r: Record, c: Constructor) {
    && c.usr == r.usr + "#mixin_impl_ctor" && c.constructorIndex == 0 && c.inits == []
    && |c.params| == |r.fields| && |c.body| == |r.fields|
    && forall j | 0 <= j < |r.fields| ::
         c.params[j] == Param(r.fields[j].name, r.fields[j].ty, None) && c.body[j] == FillField(r, r.fields[j])
  }

  function FillField(r: Record, f: Field): Stmt {
    FieldAssign(This(Type.Record(r.usr + "#mixin_impl", "_" + r.name + "Impl"), r.origin), f.name,
                Ref(f.name, f.ty, r.origin))
  }

  /** `m` is a static method that passes its parameters on, in order, to the sibling's constructor `c`. */
  ghost predicate FactoryFor(r: Record, c: Constructor, m: Method) {
    && m.isStatic && !m.isOverride && m.name == FactoryText(c.constructorIndex)
    && m.usr == r.usr + "#mixin_factory_" + Numeral(c.constructorIndex)
    && m.params == c.params && m.returnType == Type.Record(r.usr, r.name) && m.body.Some? && |m.body.value| == 1
    && PassesOn(r, c, m.body.value[0])
  }

  ghost predicate PassesOn(r: Record, c: Constructor, s: Stmt) {
    && s.Return? && s.result.Some? && s.result.value.ConstructorCall?
    && var call := s.result.value;
       && call.typeUsr == r.usr + "#mixin_impl" && call.typeName == "_" + r.name + "Impl"
       && call.constructorIndex == c.constructorIndex && call.origin == r.origin && |call.args| == |c.params|
       && forall j | 0 <= j < |c.params| :: call.args[j] == Ref(c.params[j].name, c.params[j].ty, r.origin)
  }

  /** `sorted` is `cs` by index, and in the order of `cs` where indices agree. */
  ghost predicate ByIndex(cs: seq<Constructor>, sorted: seq<Constructor>) {
    && multiset(sorted) == multiset(cs)
    && (forall i, j | 0 <= i < j < |sorted| :: sorted[i].constructorIndex <= sorted[j].constructorIndex)
    && forall k :: OfIndex(sorted, k) == OfIndex(cs, k)
  }

  function OfIndex(cs: seq<Constructor>, k: nat): seq<Constructor> {
    if cs == [] then []
    else OfIndex(cs[..|cs| - 1], k)
         + if cs[|cs| - 1].constructorIndex == k then [cs[|cs| - 1]] else []
  }

  ghost predicate FactoriesFor(r: Record, ms: seq<Method>) {
    exists cs, sorted :: FactoriesOf(r, cs, sorted, ms)
  }

  ghost predicate FactoriesOf(r: Record, cs: seq<Constructor>, sorted: seq<Constructor>, ms: seq<Method>) {
    Own(r, cs) && ByIndex(cs, sorted) && |ms| == |sorted| && forall j | 0 <= j < |ms| :: FactoryFor(r, sorted[j], ms[j])
  }

  /** The sibling of record `i`: its constructors with their sites rewritten, the record as its one
      mixin, and nothing else. */
  ghost predicate SiblingFor(x: Input, i: int, y: Record)
    requires 0 <= i < |x.rs|
  {
    var r := x.rs[i];
    && y == RecordDecl("_" + r.name + "Impl", r.usr + "#mixin_impl", r.namespace, [], [], y.constructors, [],
                       None, [BaseClass(r.usr, r.name)], None, r.origin)
    && exists cs :: Own(r, cs) && ConstructorsTo(x, cs, y.constructors)
  }

  ghost predicate ConstructorsTo(x: Input, cs: seq<Constructor>, ds: seq<Constructor>) {
    |ds| == |cs| && forall j | 0 <= j < |cs| ::
      ds[j] == cs[j].(body := ds[j].body) && StmtsTo(Sites(x), cs[j].body, ds[j].body)
  }

  // ----- records -----

  /** What stays and what becomes of the record at `i`. */
  ghost predicate RecordTo(x: Input, i: int, y: Record)
    requires 0 <= i < |x.rs|
  {
    var r := x.rs[i];
    && y == r.(baseClass := y.baseClass, mixins := y.mixins, constructors := y.constructors, methods := y.methods,
               destructor := y.destructor)
    && (if r.baseClass.Some? && IsMixin(x.rs, r.baseClass.value.usr)
        then y.baseClass == None && y.mixins == [r.baseClass.value] + r.mixins
        else y.baseClass == r.baseClass && y.mixins == r.mixins)
    && BodiesTo(x, r, y) && OptionalTo(x, r.usr, r.destructor, y.destructor)
    && (if x.Built(i) then FactoriesFor(r, y.methods[|r.methods|..]) else |y.methods| == |r.methods|)
  }

  ghost predicate BodiesTo(x: Input, r: Record, y: Record) {
    && |y.constructors| == |r.constructors| && |r.methods| <= |y.methods|
    && (forall j | 0 <= j < |r.constructors| ::
          y.constructors[j] == r.constructors[j].(body := y.constructors[j].body)
          && BodyTo(x, r.usr, r.constructors[j].body, y.constructors[j].body))
    && forall j | 0 <= j < |r.methods| ::
         y.methods[j] == r.methods[j].(body := y.methods[j].body)
         && OptionalTo(x, r.usr, r.methods[j].body, y.methods[j].body)
  }

  ghost predicate Rising(at: seq<nat>) {
    forall k, l | 0 <= k < l < |at| :: at[k] < at[l]
  }

  /** `at` lists the mixins some body constructs, in order. */
  ghost predicate BuiltAt(x: Input, at: seq<nat>) {
    && Rising(at)
    && forall i: nat :: i in at <==> x.Built(i)
  }

  ghost predicate FunctionsTo(x: Input, outFs: seq<Function>) {
    |outFs| == |x.fs| && forall i | 0 <= i < |x.fs| ::
      outFs[i] == x.fs[i].(body := outFs[i].body) && StmtsTo(Sites(x), x.fs[i].body, outFs[i].body)
  }

  ghost predicate RecordsTo(x: Input, out: seq<Record>) {
    |x.rs| <= |out| && forall i | 0 <= i < |x.rs| :: RecordTo(x, i, out[i])
  }

  ghost predicate SiblingsTo(x: Input, at: seq<nat>, siblings: seq<Record>) {
    |siblings| == |at| && forall k | 0 <= k < |at| :: at[k] < |x.rs| && SiblingFor(x, at[k], siblings[k])
  }

  ghost predicate Leaves(x: Input, outFs: seq<Function>, out: seq<Record>, at: seq<nat>) {
    && FunctionsTo(x, outFs) && RecordsTo(x, out)
    && BuiltAt(x, at) && SiblingsTo(x, at, out[|x.rs|..])
  }

  // ----- sorting by index -----

  lemma OneMoreOfIndex(cs: seq<Constructor>, c: Constructor, k: nat)
    ensures OfIndex(cs + [c], k) == OfIndex(cs, k) + if c.constructorIndex == k then [c] else []
  {
    assert (cs + [c])[..|cs|] == cs;
  }

  lemma {:induction false} InsertedByIndex(cs: seq<Constructor>, c: Constructor)
    requires forall i, j | 0 <= i < j < |cs| :: cs[i].constructorIndex <= cs[j].constructorIndex
    ensures var r := InsertByIndex(cs, c);
            forall i, j | 0 <= i < j < |r| :: r[i].constructorIndex <= r[j].constructorIndex
    decreases |cs|
  {
    if cs != [] && cs[|cs| - 1].constructorIndex > c.constructorIndex {
      var front, last := cs[..|cs| - 1], cs[|cs| - 1];
      InsertedByIndex(front, c);
      MixinForms.InsertedElements(front, c);
      var r := InsertByIndex(front, c);
      forall i | 0 <= i < |r| ensures r[i].constructorIndex <= last.constructorIndex {
        assert r[i] in multiset(front) + multiset{c};
      }
    }
  }

  lemma {:induction false} InsertedStably(cs: seq<Constructor>, c: Constructor, k: nat)
    ensures OfIndex(InsertByIndex(cs, c), k) == OfIndex(cs + [c], k)
    decreases |cs|
  {
    OneMoreOfIndex(cs, c, k);
    if cs != [] && cs[|cs| - 1].constructorIndex > c.constructorIndex {
      var front, last := cs[..|cs| - 1], cs[|cs| - 1];
      InsertedStably(front, c, k);
      OneMoreOfIndex(front, c, k);
      OneMoreOfIndex(InsertByIndex(front, c), last, k);
    } else if cs == [] {
      assert [] + [c] == [c];
    }
  }

  lemma {:induction false} SortedByIndex(cs: seq<Constructor>)
    ensures ByIndex(cs, SortByIndex(cs))
    decreases |cs|
  {
    SortedElements(cs);
    if cs != [] {
      var front, last := cs[..|cs| - 1], cs[|cs| - 1];
      SortedByIndex(front);
      InsertedByIndex(SortByIndex(front), last);
      forall k ensures OfIndex(SortByIndex(cs), k) == OfIndex(cs, k) {
        InsertedStably(SortByIndex(front), last, k);
        OneMoreOfIndex(SortByIndex(front), last, k);
      }
    }
  }

  // ----- the parts the pass builds -----

  lemma {:induction false} FieldsFilled(r: Record, fields: seq<Field>)
    ensures |AssignFields(r, fields)| == |fields|
    ensures forall j | 0 <= j < |fields| :: AssignFields(r, fields)[j] == FillField(r, fields[j])
    decreases |fields|
  {
    if fields != [] { FieldsFilled(r, fields[1..]); }
  }

  lemma OwnConstructors(r: Record)
    ensures Own(r, ImplConstructors(r))
  {
    FieldsFilled(r, r.fields);
  }

  lemma {:induction false} ParametersPassed(params: seq<Param>, origin: Origin)
    ensures forall j | 0 <= j < |params| :: Forwarded(params, origin)[j] == Ref(params[j].name, params[j].ty, origin)
    decreases |params|
  {
    if params != [] { ParametersPassed(params[1..], origin); }
  }

  lemma FactoryPasses(r: Record, c: Constructor)
    ensures FactoryFor(r, c, Factory(r, c))
  {
    ParametersPassed(c.params, r.origin);
  }

  lemma AddedFactories(r: Record)
    ensures FactoriesFor(r, MixinFactories(r))
  {
    var cs := ImplConstructors(r);
    var sorted := SortByIndex(cs);
    OwnConstructors(r);
    SortedByIndex(cs);
    forall j | 0 <= j < |sorted| ensures FactoryFor(r, sorted[j], MixinFactories(r)[j]) {
      FactoryPasses(r, sorted[j]);
    }
    assert FactoriesOf(r, cs, sorted, MixinFactories(r));
  }

  // ----- the hooks do at each node what is said of it -----

  lemma {:induction false} RewriteKeys(mixins: set<string>, fs: seq<Function>, all: seq<Record>, rs: seq<Record>,
                                       u: string)
    requires u in Rewrites(mixins, fs, all, rs)
    ensures exists k | 0 <= k < |rs| :: rs[k].usr == u && Needs(mixins, fs, all, rs[k])
    decreases |rs|
  {
    var last := |rs| - 1;
    if !(Needs(mixins, fs, all, rs[last]) && rs[last].usr == u) {
      RewriteKeys(mixins, fs, all, rs[..last], u);
      var k :| 0 <= k < last && rs[..last][k].usr == u && Needs(mixins, fs, all, rs[..last][k]);
      assert rs[k].usr == u && Needs(mixins, fs, all, rs[k]);
    }
  }

  /** Only the mixins somebody builds are rewritten. */
  lemma RewriteIsBuilt(x: Input, u: string)
    requires x.Valid() && u in x.Rewrite()
    ensures exists i :: x.Built(i) && x.rs[i].usr == u
  {
    var all := x.Extension();
    RewriteKeys(x.mixins, x.fs, MigratedAll(x.mixins, x.rs), all, u);
    var k :| 0 <= k < |all| && all[k].usr == u && Needs(x.mixins, x.fs, MigratedAll(x.mixins, x.rs), all[k]);
    ExtendedHasForm(x.mixins, x.fs, x.rs);
    NeededIsRecord(x, k);
    assert SameEdges(all[k], Migrated(x.mixins, x.rs[k]));
    BuiltNeeds(x, k);
  }

  lemma NeededIsRecord(x: Input, k: nat)
    requires x.Valid() && k < |x.Extension()| && x.Extension()[k].usr in x.mixins
    ensures k < |x.rs|
  {
    ExtendedHasForm(x.mixins, x.fs, x.rs);
    if k >= |x.rs| { SiblingIsNoMixin(x, x.Extension()[k]); }
  }

  lemma SiblingIsNoMixin(x: Input, y: Record)
    requires x.Valid() && SiblingEdges(x.mixins, x.rs, y)
    ensures !IsMixin(x.rs, y.usr)
  {
    var i :| 0 <= i < |x.rs| && y.usr == ImplUsr(x.rs[i].usr);
    EndsInSuffix(x.rs[i].usr, "#mixin_impl");
    if IsMixin(x.rs, y.usr) {
      MixinIsABase(x.rs, y.usr);
      var k, j :| 0 <= k < |x.rs| && 0 <= j < |x.rs[k].Bases()| && x.rs[k].Bases()[j].usr == y.usr;
    }
  }

  lemma SiteGoesTo(x: Input, usr: string, s: Site)
    requires x.Valid()
    ensures SiteTo(x, usr, s, Landed(FactoryHooks(x.Rewrite()), usr, s))
  {
    forall i | x.Built(i) && x.rs[i].usr == usr
      ensures Landed(FactoryHooks(x.Rewrite()), usr, s)
           == Site(x.rs[i].name + "." + FactoryText(if s.index.Some? then s.index.value else 0),
                   if s.index.Some? then Some(0) else None)
    {
      RewriteNames(x, i);
    }
    if usr in x.Rewrite() { RewriteIsBuilt(x, usr); }
  }

  lemma SitesFollow(x: Input)
    requires x.Valid()
    ensures Follows(FactoryHooks(x.Rewrite()), Sites(x))
  {
    forall usr, s ensures Sites(x).site(usr, s, Landed(FactoryHooks(x.Rewrite()), usr, s)) { SiteGoesTo(x, usr, s); }
  }

  lemma SitesRewritten(x: Input, body: seq<Stmt>)
    requires x.Valid()
    ensures StmtsTo(Sites(x), body, VisitStmts(FactoryHooks(x.Rewrite()), body))
  {
    SitesFollow(x);
    VisitedStmts(FactoryHooks(x.Rewrite()), Sites(x), body);
  }

  ghost predicate Ancestry(rs: seq<Record>, usr: string, ancestors: set<string>) {
    forall v :: v in ancestors <==> Reaches(BaseGraph(rs), usr, v)
  }

  lemma CheckGoes(rs: seq<Record>, usr: string, ancestors: set<string>, e: Expr)
    requires Ancestry(rs, usr, ancestors)
    ensures CheckTo(rs, usr, e, IsChecks.SimplifyOne(e, ancestors))
  {
  }

  lemma ChecksFollow(rs: seq<Record>, usr: string, ancestors: set<string>)
    requires Ancestry(rs, usr, ancestors)
    ensures Follows(IsChecks.CheckHooks(ancestors), Checks(rs, usr))
  {
    forall e ensures Checks(rs, usr).node(e, IsChecks.CheckHooks(ancestors).onExpr(e)) {
      CheckGoes(rs, usr, ancestors, e);
    }
  }

  lemma BodyDone(x: Input, usr: string, ancestors: set<string>, body: seq<Stmt>)
    requires x.Valid() && Ancestry(x.rs, usr, ancestors)
    ensures BodyTo(x, usr, body, IsChecks.SimplifyStmts(VisitStmts(FactoryHooks(x.Rewrite()), body), ancestors))
  {
    var mid := VisitStmts(FactoryHooks(x.Rewrite()), body);
    SitesRewritten(x, body);
    ChecksFollow(x.rs, usr, ancestors);
    VisitedStmts(IsChecks.CheckHooks(ancestors), Checks(x.rs, usr), mid);
  }

  // ----- added factories stay as they are made -----

  /** Hooks that leave types, the sibling's constructions and plain nodes alone. */
  ghost predicate Spares(h: Hooks, r: Record) {
    && (forall t :: h.onType(t) == t)
    && (forall s :: h.onConstruct(r.usr + "#mixin_impl", s) == s)
    && forall e: Expr | e.Ref? || e.ConstructorCall? :: h.onExpr(e) == e
  }

  lemma {:induction false} TypeSpared(h: Hooks, t: Type)
    requires forall u :: h.onType(u) == u
    ensures VisitType(h, t) == t
    decreases t, 0
  {
    match t
    case List(e) => TypeSpared(h, e);
    case Set(e) => TypeSpared(h, e);
    case Nullable(e) => TypeSpared(h, e);
    case ListCursor(e) => TypeSpared(h, e);
    case Map(k, v) => TypeSpared(h, k); TypeSpared(h, v);
    case Pair(a, b) => TypeSpared(h, a); TypeSpared(h, b);
    case Callback(x, ps) => TypeSpared(h, x); TypesSpared(h, ps);
    case Tuple(es) => TypesSpared(h, es);
    case _ =>
  }

  lemma {:induction false} TypesSpared(h: Hooks, ts: seq<Type>)
    requires forall u :: h.onType(u) == u
    ensures VisitTypes(h, ts) == ts
    decreases ts, 0
  {
    if ts != [] {
      TypeSpared(h, ts[0]);
      TypesSpared(h, ts[1..]);
      assert ts == [ts[0]] + ts[1..];
    }
  }

  lemma {:induction false} RefsSpared(h: Hooks, r: Record, es: seq<Expr>)
    requires Spares(h, r) && forall e | e in es :: e.Ref?
    ensures VisitExprs(h, es) == es
    decreases |es|
  {
    if es != [] {
      assert es[0] in es;
      TypeSpared(h, es[0].ty);
      assert VisitExpr(h, es[0]) == es[0];
      RefsSpared(h, r, es[1..]);
      assert es == [es[0]] + es[1..];
    }
  }

  lemma FactorySpared(h: Hooks, r: Record, c: Constructor, m: Method)
    requires Spares(h, r) && FactoryFor(r, c, m)
    ensures m.body.Some? && VisitStmts(h, m.body.value) == m.body.value
  {
    var call := m.body.value[0].result.value;
    RefsSpared(h, r, call.args);
    assert VisitExpr(h, call) == call;
    assert m.body.value == [m.body.value[0]];
    assert m.body.value[1..] == [];
  }

  lemma SiblingSitesStay(x: Input, i: nat)
    requires x.Valid() && i < |x.rs|
    ensures x.rs[i].usr + "#mixin_impl" !in x.Rewrite()
  {
    var u := x.rs[i].usr + "#mixin_impl";
    EndsInSuffix(x.rs[i].usr, "#mixin_impl");
    if u in x.Rewrite() { RewriteIsBuilt(x, u); }
  }

  lemma SitesSpare(x: Input, i: nat)
    requires x.Valid() && i < |x.rs|
    ensures Spares(FactoryHooks(x.Rewrite()), x.rs[i])
  {
    SiblingSitesStay(x, i);
    RewriteSpares(x.Rewrite(), x.rs[i]);
  }

  lemma RewriteSpares(rewrite: map<string, string>, r: Record)
    requires r.usr + "#mixin_impl" !in rewrite
    ensures Spares(FactoryHooks(rewrite), r)
  {
  }

  lemma ChecksSpare(ancestors: set<string>, r: Record)
    ensures Spares(IsChecks.CheckHooks(ancestors), r)
  {
  }

  // ----- the finished records -----

  function Done(x: Input, ancestors: set<string>, body: seq<Stmt>): seq<Stmt> {
    IsChecks.SimplifyStmts(VisitStmts(FactoryHooks(Rewrites(x.mixins, x.fs, MigratedAll(x.mixins, x.rs),
                                                            Extended(x.mixins, x.fs, x.rs))), body), ancestors)
  }

  function DoneMethod(x: Input, ancestors: set<string>, m: Method): Method {
    m.(body := if m.body.Some? then Some(Done(x, ancestors, m.body.value)) else None)
  }

  function DoneConstructor(x: Input, ancestors: set<string>, c: Constructor): Constructor {
    c.(body := Done(x, ancestors, c.body))
  }

  /** A record in the ancestry map, finished. */
  ghost predicate FinishedAs(x: Input, ancestors: set<string>, e: Record, y: Record) {
    && y == e.(constructors := y.constructors, methods := y.methods, destructor := y.destructor)
    && |y.constructors| == |e.constructors| && |y.methods| == |e.methods|
    && (forall j | 0 <= j < |e.constructors| :: y.constructors[j] == DoneConstructor(x, ancestors, e.constructors[j]))
    && (forall j | 0 <= j < |e.methods| :: y.methods[j] == DoneMethod(x, ancestors, e.methods[j]))
    && y.destructor == if e.destructor.Some? then Some(Done(x, ancestors, e.destructor.value)) else None
  }

  lemma Finishing(x: Input, closures: map<string, set<string>>, e: Record)
    requires e.usr in closures
    ensures FinishedAs(x, closures[e.usr], e, FinishedRecord(x.Rewrite(), closures, e))
  {
    var visited := VisitBodies(FactoryHooks(x.Rewrite()), e);
    SimplifiedConstructors(visited.constructors, closures[e.usr]);
    SimplifiedMethods(visited.methods, closures[e.usr]);
  }

  lemma BodiesDone(x: Input, ancestors: set<string>, r: Record, e: Record, y: Record)
    requires x.Valid() && Ancestry(x.rs, r.usr, ancestors) && FinishedAs(x, ancestors, e, y)
    requires e.constructors == r.constructors && |r.methods| <= |e.methods| && e.methods[..|r.methods|] == r.methods
    requires e.destructor == r.destructor
    ensures BodiesTo(x, r, y) && OptionalTo(x, r.usr, r.destructor, y.destructor)
  {
    forall body ensures BodyTo(x, r.usr, body, Done(x, ancestors, body)) { BodyDone(x, r.usr, ancestors, body); }
    forall j | 0 <= j < |r.methods| ensures e.methods[j] == r.methods[j] {
      assert e.methods[..|r.methods|][j] == r.methods[j];
    }
  }

  lemma FactoryDone(x: Input, i: nat, ancestors: set<string>, c: Constructor, m: Method)
    requires x.Valid() && i < |x.rs| && FactoryFor(x.rs[i], c, m)
    ensures DoneMethod(x, ancestors, m) == m
  {
    SitesSpare(x, i);
    ChecksSpare(ancestors, x.rs[i]);
    FactorySpared(FactoryHooks(x.Rewrite()), x.rs[i], c, m);
    FactorySpared(IsChecks.CheckHooks(ancestors), x.rs[i], c, m);
  }

  lemma FactoriesDone(x: Input, i: nat, ancestors: set<string>, ms: seq<Method>, done: seq<Method>)
    requires x.Valid() && i < |x.rs| && FactoriesFor(x.rs[i], ms)
    requires |done| == |ms| && forall j | 0 <= j < |ms| :: done[j] == DoneMethod(x, ancestors, ms[j])
    ensures done == ms
  {
    var cs, sorted :| FactoriesOf(x.rs[i], cs, sorted, ms);
    forall j | 0 <= j < |ms| ensures done[j] == ms[j] { FactoryDone(x, i, ancestors, sorted[j], ms[j]); }
  }

  /** What the record at `i` is before its bodies are finished. */
  ghost predicate ExtensionFor(x: Input, i: nat, e: Record)
    requires i < |x.rs|
  {
    var r := x.rs[i];
    && e == r.(baseClass := e.baseClass, mixins := e.mixins, methods := e.methods)
    && (if r.baseClass.Some? && IsMixin(x.rs, r.baseClass.value.usr)
        then e.baseClass == None && e.mixins == [r.baseClass.value] + r.mixins
        else e.baseClass == r.baseClass && e.mixins == r.mixins)
    && |r.methods| <= |e.methods| && e.methods[..|r.methods|] == r.methods
    && (if x.Built(i) then FactoriesFor(r, e.methods[|r.methods|..]) else e.methods == r.methods)
  }

  lemma MigratedFactories(mixins: set<string>, r: Record)
    ensures FactoriesFor(r, MixinFactories(Migrated(mixins, r)))
  {
    var m := Migrated(mixins, r);
    AddedFactories(m);
    var cs, sorted :| FactoriesOf(m, cs, sorted, MixinFactories(m));
    assert Own(r, cs);
    forall j | 0 <= j < |sorted| ensures FactoryFor(r, sorted[j], MixinFactories(m)[j]) {
      assert FactoryFor(m, sorted[j], MixinFactories(m)[j]);
    }
    assert FactoriesOf(r, cs, sorted, MixinFactories(m));
  }

  lemma ExtensionIs(x: Input, i: nat)
    requires x.Valid() && i < |x.rs|
    ensures i < |x.Extension()| && ExtensionFor(x, i, x.Extension()[i])
  {
    ExtensionEntry(x, i);
    BuiltNeeds(x, i);
    MigratedFactories(x.mixins, x.rs[i]);
    var r, e := Migrated(x.mixins, x.rs[i]), x.Extension()[i];
    if x.Built(i) {
      assert e.methods == r.methods + MixinFactories(r);
    }
  }

  lemma Assembled(x: Input, ancestors: set<string>, i: nat, e: Record, y: Record)
    requires i < |x.rs| && ExtensionFor(x, i, e) && FinishedAs(x, ancestors, e, y)
    requires BodiesTo(x, x.rs[i], y) && OptionalTo(x, x.rs[i].usr, x.rs[i].destructor, y.destructor)
    requires x.Built(i) ==> y.methods[|x.rs[i].methods|..] == e.methods[|x.rs[i].methods|..]
    ensures RecordTo(x, i, y)
  {
  }

  lemma AddedDone(x: Input, ancestors: set<string>, i: nat, e: Record, y: Record)
    requires x.Valid() && i < |x.rs| && ExtensionFor(x, i, e) && FinishedAs(x, ancestors, e, y) && x.Built(i)
    ensures y.methods[|x.rs[i].methods|..] == e.methods[|x.rs[i].methods|..]
  {
    var n := |x.rs[i].methods|;
    FactoriesDone(x, i, ancestors, e.methods[n..], y.methods[n..]);
  }

  lemma RecordDone(x: Input, closures: map<string, set<string>>, i: nat)
    requires x.Valid() && AncestryOf(x.rs, closures) && i < |x.rs|
    ensures i < |x.Extension()| && RecordTo(x, i, FinishedRecord(x.Rewrite(), closures, x.Extension()[i]))
  {
    ExtensionIs(x, i);
    var e, ancestors := x.Extension()[i], closures[x.rs[i].usr];
    var y := FinishedRecord(x.Rewrite(), closures, e);
    Finishing(x, closures, e);
    BodiesDone(x, ancestors, x.rs[i], e, y);
    if x.Built(i) { AddedDone(x, ancestors, i, e, y); }
    Assembled(x, ancestors, i, e, y);
  }

  // ----- the siblings -----

  /** The indices of the records that need a sibling. */
  ghost function NeedAt(mixins: set<string>, fs: seq<Function>, all: seq<Record>, rs: seq<Record>): seq<nat> {
    if rs == [] then []
    else
      var last := |rs| - 1;
      NeedAt(mixins, fs, all, rs[..last]) + if Needs(mixins, fs, all, rs[last]) then [last] else []
  }

  lemma {:induction false} SiblingsAt(mixins: set<string>, fs: seq<Function>, all: seq<Record>, rs: seq<Record>)
    ensures var at, siblings := NeedAt(mixins, fs, all, rs), Siblings(mixins, fs, all, rs);
            |siblings| == |at| && forall k | 0 <= k < |at| :: at[k] < |rs| && siblings[k] == ImplRecord(rs[at[k]])
    decreases |rs|
  {
    if rs != [] { SiblingsAt(mixins, fs, all, rs[..|rs| - 1]); }
  }

  lemma {:induction false} NeedAtIs(mixins: set<string>, fs: seq<Function>, all: seq<Record>, rs: seq<Record>)
    ensures forall i: nat :: i in NeedAt(mixins, fs, all, rs) <==> i < |rs| && Needs(mixins, fs, all, rs[i])
    decreases |rs|
  {
    if rs != [] {
      var last := |rs| - 1;
      NeedAtIs(mixins, fs, all, rs[..last]);
      forall i: nat ensures i in NeedAt(mixins, fs, all, rs) <==> i < |rs| && Needs(mixins, fs, all, rs[i]) {
        if i < last { assert rs[..last][i] == rs[i]; }
      }
    }
  }

  lemma {:induction false} NeedAtRises(mixins: set<string>, fs: seq<Function>, all: seq<Record>, rs: seq<Record>)
    ensures Rising(NeedAt(mixins, fs, all, rs))
    decreases |rs|
  {
    if rs != [] {
      var last := |rs| - 1;
      var front := NeedAt(mixins, fs, all, rs[..last]);
      NeedAtRises(mixins, fs, all, rs[..last]);
      NeedAtIs(mixins, fs, all, rs[..last]);
      var at := NeedAt(mixins, fs, all, rs);
      assert at == front + if Needs(mixins, fs, all, rs[last]) then [last] else [];
      forall k, l | 0 <= k < l < |at| ensures at[k] < at[l] {
        if l < |front| { assert front[k] < front[l]; } else { assert front[k] in front; }
      }
    }
  }

  lemma SiblingDone(x: Input, closures: map<string, set<string>>, i: nat, y: Record)
    requires x.Valid() && AncestryOf(x.rs, closures) && i < |x.rs|
    requires y == FinishedRecord(x.Rewrite(), closures, ImplRecord(Migrated(x.mixins, x.rs[i])))
    ensures SiblingFor(x, i, y)
  {
    var r, m := x.rs[i], Migrated(x.mixins, x.rs[i]);
    EndsInSuffix(r.usr, "#mixin_impl");
    assert ImplRecord(m).usr !in closures;
    MigrationKeepsConstructors(x.mixins, r);
    var cs := ImplConstructors(r);
    OwnConstructors(r);
    forall j | 0 <= j < |cs| ensures StmtsTo(Sites(x), cs[j].body, y.constructors[j].body) {
      SitesRewritten(x, cs[j].body);
    }
    assert ConstructorsTo(x, cs, y.constructors);
  }

  ghost function Indices(x: Input): seq<nat> {
    var migrated := MigratedAll(x.mixins, x.rs);
    NeedAt(x.mixins, x.fs, migrated, migrated)
  }

  lemma IndicesAreBuilt(x: Input)
    requires x.Valid()
    ensures BuiltAt(x, Indices(x))
  {
    var migrated := MigratedAll(x.mixins, x.rs);
    NeedAtIs(x.mixins, x.fs, migrated, migrated);
    NeedAtRises(x.mixins, x.fs, migrated, migrated);
    forall i: nat ensures i in Indices(x) <==> x.Built(i) {
      BuiltNeeds(x, i);
      if i < |x.rs| { assert migrated[i] == Migrated(x.mixins, x.rs[i]); }
    }
  }

  lemma SiblingEntry(x: Input, k: nat)
    requires k < |Indices(x)|
    ensures |x.Extension()| == |x.rs| + |Indices(x)| && Indices(x)[k] < |x.rs|
    ensures x.Extension()[|x.rs| + k] == ImplRecord(Migrated(x.mixins, x.rs[Indices(x)[k]]))
  {
    var migrated := MigratedAll(x.mixins, x.rs);
    SiblingsAt(x.mixins, x.fs, migrated, migrated);
  }

  lemma ExtensionLength(x: Input)
    ensures |x.Extension()| == |x.rs| + |Indices(x)|
  {
    var migrated := MigratedAll(x.mixins, x.rs);
    SiblingsAt(x.mixins, x.fs, migrated, migrated);
  }

  lemma SiblingsDone(x: Input, closures: map<string, set<string>>, out: seq<Record>)
    requires x.Valid() && AncestryOf(x.rs, closures) && Finishes(x.Rewrite(), closures, x.Extension(), out)
    ensures |x.rs| <= |out| && SiblingsTo(x, Indices(x), out[|x.rs|..])
  {
    ExtensionLength(x);
    forall k | 0 <= k < |Indices(x)| ensures Indices(x)[k] < |x.rs| && SiblingFor(x, Indices(x)[k], out[|x.rs| + k]) {
      SiblingEntry(x, k);
      SiblingDone(x, closures, Indices(x)[k], out[|x.rs| + k]);
    }
  }

  lemma RecordsDone(x: Input, closures: map<string, set<string>>, out: seq<Record>)
    requires x.Valid() && AncestryOf(x.rs, closures) && Finishes(x.Rewrite(), closures, x.Extension(), out)
    ensures RecordsTo(x, out)
  {
    forall i | 0 <= i < |x.rs| ensures i < |out| && RecordTo(x, i, out[i]) { RecordDone(x, closures, i); }
    ExtendedHasForm(x.mixins, x.fs, x.rs);
  }

  lemma FunctionsDone(x: Input, outFs: seq<Function>)
    requires x.Valid() && |outFs| == |x.fs|
    requires forall i | 0 <= i < |x.fs| ::
               outFs[i] == x.fs[i].(body := VisitStmts(FactoryHooks(x.Rewrite()), x.fs[i].body))
    ensures FunctionsTo(x, outFs)
  {
    forall i | 0 <= i < |x.fs| ensures StmtsTo(Sites(x), x.fs[i].body, outFs[i].body) {
      SitesRewritten(x, x.fs[i].body);
    }
  }

  /** What is left: functions and records rewritten, nothing but the listed parts changed, and after
      them one sibling for each mixin that is constructed somewhere, in order. */
  lemma WholeOutcome(x: Input, outFs: seq<Function>, out: seq<Record>)
    requires x.Valid() && x.mixins != {} && Formed(x.mixins, x.fs, x.rs, outFs, out)
    ensures exists at :: Leaves(x, outFs, out, at)
  {
    var rewrite, closures :| Outcome(x.mixins, x.fs, x.rs, outFs, out, rewrite, closures);
    FunctionsDone(x, outFs);
    RecordsDone(x, closures, out);
    IndicesAreBuilt(x);
    SiblingsDone(x, closures, out);
    assert Leaves(x, outFs, out, Indices(x));
  }

  // ----- where it leads -----

  /** `m` calls a constructor of `sibling` by its index, with as many arguments as it takes. */
  ghost predicate MeansConstructor(m: Method, sibling: Record) {
    && m.body.Some? && |m.body.value| == 1 && m.body.value[0].Return? && m.body.value[0].result.Some?
    && var call := m.body.value[0].result.value;
       && call.ConstructorCall? && call.typeUsr == sibling.usr && call.typeName == sibling.name
       && exists c | c in sibling.constructors ::
            c.constructorIndex == call.constructorIndex && c.params == m.params && |call.args| == |c.params|
  }

  /** Every factory a mixin got constructs an instance of a sibling that exists, that applies the
      mixin and nothing else, by a constructor the sibling has. */
  lemma FactoriesMeanConstructors(x: Input, outFs: seq<Function>, out: seq<Record>, at: seq<nat>, i: nat)
    requires Leaves(x, outFs, out, at) && x.Built(i)
    ensures |x.rs[i].methods| <= |out[i].methods|
    ensures exists k | |x.rs| <= k < |out| ::
              && out[k].mixins == [BaseClass(x.rs[i].usr, x.rs[i].name)] && out[k].baseClass == None
              && forall m | m in out[i].methods[|x.rs[i].methods|..] :: MeansConstructor(m, out[k])
  {
    assert RecordTo(x, i, out[i]);
    var n :| 0 <= n < |at| && at[n] == i;
    var k := |x.rs| + n;
    assert out[k] == out[|x.rs|..][n];
    assert SiblingFor(x, i, out[k]);
    forall m | m in out[i].methods[|x.rs[i].methods|..] ensures MeansConstructor(m, out[k]) {
      FactoryMeans(x, i, out[i].methods[|x.rs[i].methods|..], m, out[k]);
    }
  }

  lemma FactoryMeans(x: Input, i: nat, ms: seq<Method>, m: Method, sibling: Record)
    requires i < |x.rs| && FactoriesFor(x.rs[i], ms) && m in ms && SiblingFor(x, i, sibling)
    ensures MeansConstructor(m, sibling)
  {
    var r := x.rs[i];
    var cs, sorted :| FactoriesOf(r, cs, sorted, ms);
    var own: seq<Constructor> :| Own(r, own) && ConstructorsTo(x, own, sibling.constructors);
    var j :| 0 <= j < |ms| && ms[j] == m;
    assert FactoryFor(r, sorted[j], m);
    assert sorted[j] in multiset(sorted) && sorted[j] in multiset(cs);
    var l := SameOwn(r, cs, own, sorted[j]);
    var c := sibling.constructors[l];
    assert c == own[l].(body := c.body);
    assert c in sibling.constructors;
  }

  lemma SameOwn(r: Record, cs: seq<Constructor>, own: seq<Constructor>, c: Constructor) returns (l: nat)
    requires Own(r, cs) && Own(r, own) && c in cs
    ensures l < |own| && own[l] == c
  {
    var k :| 0 <= k < |cs| && cs[k] == c;
    l := k;
    if r.constructors == [] {
      assert cs[0].params == own[0].params && cs[0].body == own[0].body;
    }
  }

  // ----- no check that always holds is left -----

  ghost predicate NoCheckLeft(x: Input, i: int, y: Record)
    requires 0 <= i < |x.rs|
  {
    AllBodies(NoCheck(x.rs, x.rs[i].usr), y)
  }

  lemma NoneInBody(x: Input, usr: string, ancestors: set<string>, body: seq<Stmt>)
    requires Ancestry(x.rs, usr, ancestors)
    ensures AllSs(NoCheck(x.rs, usr), Done(x, ancestors, body))
  {
    var h, c := IsChecks.CheckHooks(ancestors), NoCheck(x.rs, usr);
    forall n | Inside(c, n) ensures AllE(c, h.onExpr(n)) { NoneAtNode(x, usr, ancestors, n); }
    NodesEstablish(h, c);
    VisitedSs(h, c, VisitStmts(FactoryHooks(x.Rewrite()), body));
  }

  lemma NoneAtNode(x: Input, usr: string, ancestors: set<string>, n: Expr)
    requires Ancestry(x.rs, usr, ancestors) && Inside(NoCheck(x.rs, usr), n)
    ensures AllE(NoCheck(x.rs, usr), IsChecks.SimplifyOne(n, ancestors))
  {
    CheckGoes(x.rs, usr, ancestors, n);
  }

  lemma OutcomeParts(x: Input, outFs: seq<Function>, out: seq<Record>) returns (closures: map<string, set<string>>)
    requires x.mixins != {} && Formed(x.mixins, x.fs, x.rs, outFs, out)
    ensures AncestryOf(x.rs, closures) && Finishes(x.Rewrite(), closures, x.Extension(), out)
  {
    var rewrite;
    rewrite, closures :| Outcome(x.mixins, x.fs, x.rs, outFs, out, rewrite, closures);
  }

  /** After the pass no body of a record, at any depth, asks whether `this` is one of the classes the
      record is built from and answers null otherwise. */
  lemma NoCheckIsLeft(x: Input, outFs: seq<Function>, out: seq<Record>, i: nat)
    requires x.Valid() && x.mixins != {} && Formed(x.mixins, x.fs, x.rs, outFs, out) && i < |x.rs|
    ensures i < |out| && NoCheckLeft(x, i, out[i])
  {
    var closures := OutcomeParts(x, outFs, out);
    ExtensionUsr(x, i);
    NoneInRecord(x, closures, x.rs[i].usr, x.Extension()[i]);
  }

  lemma ExtensionUsr(x: Input, i: nat)
    requires x.Valid() && i < |x.rs|
    ensures i < |x.Extension()| && x.Extension()[i].usr == x.rs[i].usr
  {
    ExtensionIs(x, i);
  }

  lemma NoneInRecord(x: Input, closures: map<string, set<string>>, usr: string, e: Record)
    requires usr in closures && Ancestry(x.rs, usr, closures[usr]) && e.usr == usr
    ensures AllBodies(NoCheck(x.rs, usr), FinishedRecord(x.Rewrite(), closures, e))
  {
    var y := FinishedRecord(x.Rewrite(), closures, e);
    Finishing(x, closures, e);
    forall body ensures AllSs(NoCheck(x.rs, usr), Done(x, closures[usr], body)) {
      NoneInBody(x, usr, closures[usr], body);
    }
  }
}
