/**
 Which records become Dart mixins, and what that decision changes elsewhere: a
 base that is a mixin is no longer extended but applied, and a mixin that is
 constructed somewhere gets a sibling class with its constructors and static
 factories the construction sites use.
 */
module MixinForms {
  import opened Wrappers
  import opened Ir
  import opened Strings
  import opened Visitor
  import opened Everywhere
  import opened Interp
  import opened Reachability
  import IsChecks

  // ----- the decision -----

  /** Named in some record's mixins. */
  ghost predicate Applied(rs: seq<Record>, u: string) {
    exists i, j | 0 <= i < |rs| && 0 <= j < |rs[i].mixins| :: rs[i].mixins[j].usr == u
  }

  /** A mixin, or a base of one at any distance. */
  ghost predicate IsMixin(rs: seq<Record>, u: string) {
    Applied(rs, u) || exists a :: Applied(rs, a) && Reaches(BaseGraph(rs), a, u)
  }

  function AppliedUsrs(rs: seq<Record>): seq<string> {
    if rs == [] then [] else BaseUsrs(rs[0].mixins) + AppliedUsrs(rs[1..])
  }

  lemma {:induction false} AppliedUsrsAre(rs: seq<Record>)
    ensures forall u :: u in AppliedUsrs(rs) <==> Applied(rs, u)
    decreases |rs|
  {
    if rs != [] {
      AppliedUsrsAre(rs[1..]);
      forall u ensures u in AppliedUsrs(rs) <==> Applied(rs, u) {
        if u in BaseUsrs(rs[0].mixins) {
          var j :| 0 <= j < |rs[0].mixins| && BaseUsrs(rs[0].mixins)[j] == u;
          assert rs[0].mixins[j].usr == u;
        }
        if Applied(rs[1..], u) {
          var i, j :| 0 <= i < |rs[1..]| && 0 <= j < |rs[1..][i].mixins| && rs[1..][i].mixins[j].usr == u;
          assert rs[i + 1].mixins[j].usr == u;
        }
        if Applied(rs, u) {
          var i, j :| 0 <= i < |rs| && 0 <= j < |rs[i].mixins| && rs[i].mixins[j].usr == u;
          if i == 0 {
            assert BaseUsrs(rs[0].mixins)[j] == u;
          } else {
            assert rs[1..][i - 1].mixins[j].usr == u;
          }
        }
      }
    }
  }

  lemma MixinIsFromSome(rs: seq<Record>, u: string)
    ensures IsMixin(rs, u) <==> FromSome(BaseGraph(rs), AppliedUsrs(rs), u)
  {
    AppliedUsrsAre(rs);
  }

  method MixinUsrs(rs: seq<Record>) returns (mixins: set<string>)
    ensures forall u :: u in mixins <==> IsMixin(rs, u)
  {
    var g: Graph := map[];
    for i := 0 to |rs|
      invariant g == BaseGraph(rs[..i])
    {
      assert rs[..i + 1][..i] == rs[..i];
      g := g[rs[i].usr := BaseUsrs(rs[i].Bases())];
    }
    assert rs[..|rs|] == rs;
    mixins := CloseOver(g, AppliedUsrs(rs));
    forall u ensures u in mixins <==> IsMixin(rs, u) { MixinIsFromSome(rs, u); }
  }

  // ----- migrating bases -----

  function Migrated(mixins: set<string>, r: Record): Record {
    if r.baseClass.Some? && r.baseClass.value.usr in mixins
    then r.(baseClass := None, mixins := [r.baseClass.value] + r.mixins)
    else r
  }

  function MigratedAll(mixins: set<string>, rs: seq<Record>): (m: seq<Record>)
    ensures |m| == |rs| && forall i | 0 <= i < |rs| :: m[i] == Migrated(mixins, rs[i])
  {
    seq(|rs|, i requires 0 <= i < |rs| => Migrated(mixins, rs[i]))
  }

  /** The edge moves; the list of bases stays the same, order included. */
  lemma MigrationKeepsBases(mixins: set<string>, r: Record)
    ensures Migrated(mixins, r).Bases() == r.Bases() && Migrated(mixins, r).usr == r.usr
  {
  }

  /** So ancestry does not depend on whether it is asked before or after. */
  lemma {:induction false} MigrationKeepsAncestry(mixins: set<string>, rs: seq<Record>)
    ensures BaseGraph(MigratedAll(mixins, rs)) == BaseGraph(rs)
    decreases |rs|
  {
    if rs != [] {
      var last := |rs| - 1;
      assert MigratedAll(mixins, rs)[..last] == MigratedAll(mixins, rs[..last]);
      MigrationKeepsAncestry(mixins, rs[..last]);
      MigrationKeepsBases(mixins, rs[last]);
    }
  }

  // ----- constructions -----

  predicate Builds(e: Expr, u: string) {
    (e.RecordConstruct? || e.ConstructorCall?) && e.typeUsr == u
  }

  function NotBuilding(u: string): Check {
    Check(e => !Builds(e, u), t => true)
  }

  predicate BuildsIn(ss: seq<Stmt>, u: string) {
    !AllSs(NotBuilding(u), ss)
  }

  predicate BuiltInRecord(r: Record, u: string) {
    || (exists i | 0 <= i < |r.constructors| :: BuildsIn(r.constructors[i].body, u))
    || (exists i | 0 <= i < |r.methods| :: r.methods[i].body.Some? && BuildsIn(r.methods[i].body.value, u))
    || (r.destructor.Some? && BuildsIn(r.destructor.value, u))
  }

  /** Some body of the module constructs a `u`. */
  predicate Constructed(fs: seq<Function>, rs: seq<Record>, u: string) {
    || (exists i | 0 <= i < |fs| :: BuildsIn(fs[i].body, u))
    || (exists i | 0 <= i < |rs| :: BuiltInRecord(rs[i], u))
  }

  // ----- the sibling and the factories -----

  function ImplUsr(usr: string): string { usr + "#mixin_impl" }
  function ImplName(name: string): string { "_" + name + "Impl" }

  function ImplType(r: Record): Type { Type.Record(ImplUsr(r.usr), ImplName(r.name)) }

  function FieldParams(fields: seq<Field>): (ps: seq<Param>)
    ensures |ps| == |fields| && forall i | 0 <= i < |fields| :: ps[i] == Param(fields[i].name, fields[i].ty, None)
  {
    seq(|fields|, i requires 0 <= i < |fields| => Param(fields[i].name, fields[i].ty, None))
  }

  function AssignField(r: Record, f: Field): Stmt {
    FieldAssign(This(ImplType(r), r.origin), f.name, Ref(f.name, f.ty, r.origin))
  }

  function AssignFields(r: Record, fields: seq<Field>): seq<Stmt> {
    if fields == [] then [] else [AssignField(r, fields[0])] + AssignFields(r, fields[1..])
  }

  /** The record's own constructors, or one that fills the fields of an aggregate. */
  function ImplConstructors(r: Record): seq<Constructor> {
    if r.constructors == []
    then [Constructor(r.usr + "#mixin_impl_ctor", 0, FieldParams(r.fields), [], AssignFields(r, r.fields))]
    else r.constructors
  }

  function ImplRecord(r: Record): Record {
    RecordDecl(ImplName(r.name), ImplUsr(r.usr), r.namespace, [], [], ImplConstructors(r), [],
               None, [BaseClass(r.usr, r.name)], None, r.origin)
  }

  function FactoryName(index: nat): string {
    if index == 0 then "create" else "create" + Numeral(index + 1)
  }

  function Forwarded(params: seq<Param>, origin: Origin): (args: seq<Expr>)
    ensures |args| == |params|
  {
    if params == [] then [] else [Ref(params[0].name, params[0].ty, origin)] + Forwarded(params[1..], origin)
  }

  function Factory(r: Record, c: Constructor): Method {
    Method(FactoryName(c.constructorIndex), r.usr + "#mixin_factory_" + Numeral(c.constructorIndex),
           c.params, Type.Record(r.usr, r.name),
           Some([Return(Some(ConstructorCall(ImplUsr(r.usr), ImplName(r.name), c.constructorIndex,
                                             Forwarded(c.params, r.origin), r.origin)))]),
           true, false)
  }

  /** Stable insertion by constructor index. */
  function InsertByIndex(cs: seq<Constructor>, c: Constructor): seq<Constructor> {
    if cs == [] then [c]
    else if cs[|cs| - 1].constructorIndex <= c.constructorIndex then cs + [c]
    else InsertByIndex(cs[..|cs| - 1], c) + [cs[|cs| - 1]]
  }

  function SortByIndex(cs: seq<Constructor>): seq<Constructor> {
    if cs == [] then [] else InsertByIndex(SortByIndex(cs[..|cs| - 1]), cs[|cs| - 1])
  }

  function Factories(r: Record, cs: seq<Constructor>): (ms: seq<Method>)
    ensures |ms| == |cs| && forall i | 0 <= i < |cs| :: ms[i] == Factory(r, cs[i])
  {
    seq(|cs|, i requires 0 <= i < |cs| => Factory(r, cs[i]))
  }

  function MixinFactories(r: Record): seq<Method> {
    Factories(r, SortByIndex(ImplConstructors(r)))
  }

  lemma {:induction false} InsertedElements(cs: seq<Constructor>, c: Constructor)
    ensures multiset(InsertByIndex(cs, c)) == multiset(cs) + multiset{c}
    decreases |cs|
  {
    if cs != [] {
      var last := |cs| - 1;
      assert cs == cs[..last] + [cs[last]];
      InsertedElements(cs[..last], c);
    }
  }

  lemma {:induction false} SortedElements(cs: seq<Constructor>)
    ensures multiset(SortByIndex(cs)) == multiset(cs)
    decreases |cs|
  {
    if cs != [] {
      var last := |cs| - 1;
      assert cs == cs[..last] + [cs[last]];
      SortedElements(cs[..last]);
      InsertedElements(SortByIndex(cs[..last]), cs[last]);
    }
  }

  lemma FactoryNameInjective(j: nat, k: nat)
    requires FactoryName(j) == FactoryName(k)
    ensures j == k
  {
    assert FactoryName(j)[6..] == Ordinal(j) && FactoryName(k)[6..] == Ordinal(k);
    OrdinalInjective(j, k);
  }

  lemma SortedMembers(cs: seq<Constructor>, c: Constructor)
    ensures c in cs <==> c in SortByIndex(cs)
  {
    SortedElements(cs);
    assert c in multiset(cs) <==> c in multiset(SortByIndex(cs));
  }

  predicate FactoryOf(m: Method, k: nat, params: seq<Param>) {
    m.isStatic && m.name == FactoryName(k) && m.params == params
  }

  /** A factory of a given name and parameters exists exactly for a constructor of that index
      and those parameters. */
  lemma FactoryPerConstructor(r: Record, k: nat, params: seq<Param>)
    ensures (exists m | m in MixinFactories(r) :: FactoryOf(m, k, params))
       <==> (exists c | c in ImplConstructors(r) :: c.constructorIndex == k && c.params == params)
  {
    var sorted := SortByIndex(ImplConstructors(r));
    if exists m | m in MixinFactories(r) :: FactoryOf(m, k, params) {
      var m :| m in MixinFactories(r) && FactoryOf(m, k, params);
      var i :| 0 <= i < |sorted| && MixinFactories(r)[i] == m;
      FactoryNameInjective(k, sorted[i].constructorIndex);
      SortedMembers(ImplConstructors(r), sorted[i]);
    }
    if exists c | c in ImplConstructors(r) :: c.constructorIndex == k && c.params == params {
      var c :| c in ImplConstructors(r) && c.constructorIndex == k && c.params == params;
      SortedMembers(ImplConstructors(r), c);
      var i :| 0 <= i < |sorted| && sorted[i] == c;
      assert FactoryOf(MixinFactories(r)[i], k, params);
    }
  }

  // ----- construction sites -----

  function FactorySite(rewrite: map<string, string>, usr: string, s: Site): Site {
    if usr !in rewrite then s
    else match s.index
      case None => Site(rewrite[usr] + "." + FactoryName(0), None)
      case Some(i) => Site(rewrite[usr] + "." + FactoryName(i), Some(0))
  }

  function FactoryHooks(rewrite: map<string, string>): Hooks {
    Hooks(SameType, (u, s) => FactorySite(rewrite, u, s), SameExpr)
  }

  /** One construction: the factory of its own index, its arguments in place. */
  lemma SiteCallsItsFactory(rewrite: map<string, string>, e: Expr)
    requires (e.RecordConstruct? || e.ConstructorCall?) && e.typeUsr in rewrite
    ensures var x := VisitExpr(FactoryHooks(rewrite), e);
            var index := if e.ConstructorCall? then e.constructorIndex else 0;
            && (x.RecordConstruct? || x.ConstructorCall?) && x.typeUsr == e.typeUsr && |x.args| == |e.args|
            && x.typeName == rewrite[e.typeUsr] + "." + FactoryName(index)
            && (x.ConstructorCall? ==> x.constructorIndex == 0)
  {
  }

  // ----- what a factory does -----

  function Bound(fields: seq<Field>, vs: seq<Value>): Frame
    requires |fields| == |vs|
  {
    if fields == [] then map[]
    else
      var last := |fields| - 1;
      Bound(fields[..last], vs[..last])[fields[last].name := vs[last]]
  }

  lemma {:induction false} BoundNames(fields: seq<Field>, vs: seq<Value>)
    requires |fields| == |vs|
    ensures forall n :: n in Bound(fields, vs) <==> exists i | 0 <= i < |fields| :: fields[i].name == n
    decreases |fields|
  {
    if fields != [] {
      var last := |fields| - 1;
      BoundNames(fields[..last], vs[..last]);
    }
  }

  function SetFields(st: Store, id: nat, fields: Frame): Store
    requires id in st.heap
  {
    var o := st.heap[id];
    st.(heap := st.heap[id := o.(fields := o.fields + fields)])
  }

  /** Only some of the names. */
  function Part(frame: Frame, fields: seq<Field>): Frame {
    map n | n in frame && exists i | 0 <= i < |fields| :: fields[i].name == n :: frame[n]
  }

  lemma {:induction false} AssigningFields(w: World, fuel: nat, r: Record, fields: seq<Field>, env: Env, st: Store,
                                           id: nat)
    requires id in st.heap && env != []
    requires forall i | 0 <= i < |fields| :: fields[i].name in env[0]
    ensures ExecStmts(w, fuel, AssignFields(r, fields), env, st, Some(ObjV(id)))
         == Res(env, SetFields(st, id, Part(env[0], fields)), Normal)
    decreases |fields|
  {
    var self := Some(ObjV(id));
    if fields == [] {
      assert Part(env[0], fields) == map[];
      assert st.heap[id].fields + map[] == st.heap[id].fields;
      assert SetFields(st, id, map[]) == st;
    } else {
      var f := fields[0];
      assert Lookup(env, f.name) == Some(env[0][f.name]);
      var v := env[0][f.name];
      var next := st.(heap := st.heap[id := st.heap[id].(fields := st.heap[id].fields[f.name := v])]);
      assert ExecStmt(w, fuel, AssignField(r, f), env, st, self) == Res(env, next, Normal);
      AssigningFields(w, fuel, r, fields[1..], env, next, id);
      assert AssignFields(r, fields)[1..] == AssignFields(r, fields[1..]);
      OneMoreField(env[0], fields, st.heap[id].fields);
      assert SetFields(next, id, Part(env[0], fields[1..])) == SetFields(st, id, Part(env[0], fields));
    }
  }

  lemma OneMoreField(frame: Frame, fields: seq<Field>, base: Frame)
    requires fields != [] && fields[0].name in frame
    ensures base[fields[0].name := frame[fields[0].name]] + Part(frame, fields[1..]) == base + Part(frame, fields)
  {
    forall n ensures n in Part(frame, fields) <==> n in Part(frame, fields[1..]) || n == fields[0].name {
      if n in Part(frame, fields[1..]) {
        var i :| 0 <= i < |fields[1..]| && fields[1..][i].name == n;
        assert fields[i + 1].name == n;
      }
      if n in Part(frame, fields) && n != fields[0].name {
        var i :| 0 <= i < |fields| && fields[i].name == n;
        assert fields[1..][i - 1].name == n;
      }
    }
  }

  /** The synthesized constructor, run on a new object with the arguments of an aggregate
      construction, gives its fields the values the aggregate would have, and does nothing else. */
  lemma SynthesizedConstructorFillsTheAggregate(w: World, fuel: nat, r: Record, vs: seq<Value>, st: Store, id: nat)
    requires r.constructors == [] && |vs| == |r.fields| && id in st.heap
    ensures |ImplConstructors(r)| == 1 && |ImplConstructors(r)[0].params| == |vs|
    ensures forall i | 0 <= i < |r.fields| :: ImplConstructors(r)[0].params[i].name == r.fields[i].name
    ensures ExecBlock(w, fuel, ImplConstructors(r)[0].body, Bound(r.fields, vs), [], st, Some(ObjV(id)))
         == Res([], SetFields(st, id, Bound(r.fields, vs)), Normal)
  {
    BoundNames(r.fields, vs);
    AssigningFields(w, fuel, r, r.fields, [Bound(r.fields, vs)], st, id);
    assert Part(Bound(r.fields, vs), r.fields) == Bound(r.fields, vs);
    assert [Bound(r.fields, vs)] + [] == [Bound(r.fields, vs)];
  }

  lemma {:induction false} ForwardedValues(w: World, params: seq<Param>, origin: Origin, env: Env, st: Store,
                                           self: Option<Value>, vs: seq<Value>)
    requires |vs| == |params| && forall i | 0 <= i < |params| :: Lookup(env, params[i].name) == Some(vs[i])
    ensures EvalExprs(w, Forwarded(params, origin), env, st, self) == ESRes(env, st, Vals(vs))
    decreases |params|
  {
    if params != [] {
      assert Forwarded(params, origin)[1..] == Forwarded(params[1..], origin);
      ForwardedValues(w, params[1..], origin, env, st, self, vs[1..]);
      assert vs == [vs[0]] + vs[1..];
    }
  }

  function Result(env: Env, built: Invoked): Res {
    Res(env, built.st, if built.r.Val? then Returned(built.r.v) else Threw(built.r.thrown))
  }

  /** A factory returns what the sibling's constructor of the same index returns for the same arguments. */
  lemma FactoryForwards(w: World, fuel: nat, r: Record, c: Constructor, env: Env, st: Store, vs: seq<Value>)
    requires |vs| == |c.params| && forall i | 0 <= i < |c.params| :: Lookup(env, c.params[i].name) == Some(vs[i])
    ensures ExecStmts(w, fuel, Factory(r, c).body.value, env, st, None)
         == Result(env, w.invoke(ConstructorSite(ImplUsr(r.usr), c.constructorIndex), None, vs, st))
  {
    ForwardedValues(w, c.params, r.origin, env, st, None, vs);
    var body := Factory(r, c).body.value;
    assert body[1..] == [];
  }

  // ----- the pass -----

  function VisitConstructors(h: Hooks, cs: seq<Constructor>): (r: seq<Constructor>)
    ensures |r| == |cs| && forall i | 0 <= i < |cs| :: r[i] == cs[i].(body := VisitStmts(h, cs[i].body))
  {
    seq(|cs|, i requires 0 <= i < |cs| => cs[i].(body := VisitStmts(h, cs[i].body)))
  }

  function VisitMethod(h: Hooks, m: Method): Method {
    m.(body := if m.body.Some? then Some(VisitStmts(h, m.body.value)) else None)
  }

  function VisitMethods(h: Hooks, ms: seq<Method>): (r: seq<Method>)
    ensures |r| == |ms| && forall i | 0 <= i < |ms| :: r[i] == VisitMethod(h, ms[i])
  {
    seq(|ms|, i requires 0 <= i < |ms| => VisitMethod(h, ms[i]))
  }

  /** The bodies of a record: its initializers and parameter defaults are not walked. */
  function VisitBodies(h: Hooks, r: Record): Record {
    r.(constructors := VisitConstructors(h, r.constructors), methods := VisitMethods(h, r.methods),
       destructor := if r.destructor.Some? then Some(VisitStmts(h, r.destructor.value)) else None)
  }

  /** The records that get a sibling: mixins constructed somewhere. */
  predicate Needs(mixins: set<string>, fs: seq<Function>, rs: seq<Record>, r: Record) {
    r.usr in mixins && Constructed(fs, rs, r.usr)
  }

  function WithFactories(mixins: set<string>, fs: seq<Function>, rs: seq<Record>, r: Record): Record {
    if Needs(mixins, fs, rs, r) then r.(methods := r.methods + MixinFactories(r)) else r
  }

  function Siblings(mixins: set<string>, fs: seq<Function>, all: seq<Record>, rs: seq<Record>): (s: seq<Record>)
    ensures forall k | 0 <= k < |s| :: IsSibling(mixins, rs, s[k])
  {
    if rs == [] then []
    else
      var last := |rs| - 1;
      var before := Siblings(mixins, fs, all, rs[..last]);
      assert forall x | IsSibling(mixins, rs[..last], x) :: IsSibling(mixins, rs, x);
      before + if Needs(mixins, fs, all, rs[last]) then [ImplRecord(rs[last])] else []
  }

  ghost predicate IsSibling(mixins: set<string>, rs: seq<Record>, x: Record) {
    exists i | 0 <= i < |rs| :: rs[i].usr in mixins && x == ImplRecord(rs[i])
  }

  function WithFactoriesAll(mixins: set<string>, fs: seq<Function>, rs: seq<Record>): (r: seq<Record>)
    ensures |r| == |rs| && forall i | 0 <= i < |rs| :: r[i] == WithFactories(mixins, fs, rs, rs[i])
  {
    seq(|rs|, i requires 0 <= i < |rs| => WithFactories(mixins, fs, rs, rs[i]))
  }

  /** The records before their bodies are rewritten. */
  function Extended(mixins: set<string>, fs: seq<Function>, rs: seq<Record>): seq<Record> {
    var migrated := MigratedAll(mixins, rs);
    WithFactoriesAll(mixins, fs, migrated) + Siblings(mixins, fs, migrated, migrated)
  }

  /** Which constructions become factory calls, and on which class. */
  function Rewrites(mixins: set<string>, fs: seq<Function>, all: seq<Record>, rs: seq<Record>): map<string, string> {
    if rs == [] then map[]
    else
      var last := |rs| - 1;
      var before := Rewrites(mixins, fs, all, rs[..last]);
      if Needs(mixins, fs, all, rs[last]) then before[rs[last].usr := rs[last].name] else before
  }

  function Simplified(closures: map<string, set<string>>, r: Record): Record {
    if r.usr in closures then IsChecks.SimplifyRecord(r, closures[r.usr]) else r
  }

  function FinishedRecord(rewrite: map<string, string>, closures: map<string, set<string>>, r: Record): Record {
    Simplified(closures, VisitBodies(FactoryHooks(rewrite), r))
  }

  // ----- the shape of the result -----

  /** What the pass may do to usrs and base edges. */
  ghost predicate HasForm(mixins: set<string>, rs: seq<Record>, out: seq<Record>) {
    && |rs| <= |out|
    && (forall i | 0 <= i < |rs| :: SameEdges(out[i], Migrated(mixins, rs[i])))
    && (forall i | |rs| <= i < |out| :: SiblingEdges(mixins, rs, out[i]))
  }

  ghost predicate SameEdges(x: Record, y: Record) {
    x.usr == y.usr && x.name == y.name && x.baseClass == y.baseClass && x.mixins == y.mixins
  }

  ghost predicate SiblingEdges(mixins: set<string>, rs: seq<Record>, x: Record) {
    exists i | 0 <= i < |rs| ::
      rs[i].usr in mixins && x.usr == ImplUsr(rs[i].usr) && x.baseClass.None?
          && x.mixins == [BaseClass(rs[i].usr, rs[i].name)]
  }

  lemma FinishingKeepsEdges(rewrite: map<string, string>, closures: map<string, set<string>>, r: Record)
    ensures SameEdges(FinishedRecord(rewrite, closures, r), r)
  {
  }

  lemma ExtendedHasForm(mixins: set<string>, fs: seq<Function>, rs: seq<Record>)
    ensures HasForm(mixins, rs, Extended(mixins, fs, rs))
  {
    var migrated := MigratedAll(mixins, rs);
    var siblings := Siblings(mixins, fs, migrated, migrated);
    forall k | 0 <= k < |siblings| ensures SiblingEdges(mixins, rs, siblings[k]) {
      assert IsSibling(mixins, migrated, siblings[k]);
      var i :| 0 <= i < |migrated| && migrated[i].usr in mixins && siblings[k] == ImplRecord(migrated[i]);
      assert rs[i].usr in mixins;
    }
  }

  /** Usrs of siblings are new. */
  ghost predicate NoSiblingUsr(rs: seq<Record>) {
    forall i | 0 <= i < |rs| :: !EndsWith(rs[i].usr, "#mixin_impl")
                             && forall j | 0 <= j < |rs[i].Bases()| :: !EndsWith(rs[i].Bases()[j].usr, "#mixin_impl")
  }

  ghost predicate IsDecision(rs: seq<Record>, mixins: set<string>) {
    forall u :: u in mixins <==> IsMixin(rs, u)
  }

  /** Afterwards no record extends a mixin. */
  lemma NoRecordExtendsAMixin(mixins: set<string>, rs: seq<Record>, out: seq<Record>, i: nat)
    requires IsDecision(rs, mixins) && HasForm(mixins, rs, out) && i < |out|
    ensures out[i].baseClass.Some? ==> !IsMixin(rs, out[i].baseClass.value.usr)
  {
    if i >= |rs| { assert SiblingEdges(mixins, rs, out[i]); }
  }

  lemma {:induction false} GraphEntry(rs: seq<Record>, i: nat)
    requires i < |rs| && forall j | 0 <= j < |rs| && j != i :: rs[j].usr != rs[i].usr
    ensures rs[i].usr in BaseGraph(rs) && BaseGraph(rs)[rs[i].usr] == BaseUsrs(rs[i].Bases())
    decreases |rs|
  {
    var last := |rs| - 1;
    if i < last {
      assert rs[..last][i] == rs[i];
      GraphEntry(rs[..last], i);
    }
  }

  /** And a mixin itself extends nothing: whatever it was built from is a mixin too. */
  lemma MixinsExtendNothing(mixins: set<string>, rs: seq<Record>, out: seq<Record>, i: nat)
    requires IsDecision(rs, mixins) && HasForm(mixins, rs, out) && UsrsUnique(rs)
    requires i < |out| && out[i].usr in mixins
    ensures out[i].baseClass.None?
  {
    if i >= |rs| {
      assert SiblingEdges(mixins, rs, out[i]);
    } else {
      assert SameEdges(out[i], Migrated(mixins, rs[i]));
      if rs[i].baseClass.Some? {
        var g, base := BaseGraph(rs), rs[i].baseClass.value.usr;
        GraphEntry(rs, i);
        assert rs[i].Bases()[0].usr == base;
        assert Edge(g, rs[i].usr, base) by { assert g[rs[i].usr][0] == base; }
        MixinIsFromSome(rs, rs[i].usr);
        FromSomeStep(g, AppliedUsrs(rs), rs[i].usr, base);
        MixinIsFromSome(rs, base);
      }
    }
  }

  /** Every record keeps its bases, in order; a sibling's only base is its record. */
  lemma BasesConserved(mixins: set<string>, rs: seq<Record>, out: seq<Record>, i: nat)
    requires HasForm(mixins, rs, out) && i < |rs|
    ensures out[i].Bases() == rs[i].Bases()
  {
    assert SameEdges(out[i], Migrated(mixins, rs[i]));
    MigrationKeepsBases(mixins, rs[i]);
  }

  ghost predicate GraphExtends(g: Graph, h: Graph) {
    && (forall u | u in g :: u in h && h[u] == g[u])
    && (forall u | u in h && u !in g :: EndsWith(u, "#mixin_impl"))
  }

  lemma {:induction false} GraphUsrs(rs: seq<Record>)
    ensures forall u :: u in BaseGraph(rs) <==> exists i | 0 <= i < |rs| :: rs[i].usr == u
    decreases |rs|
  {
    if rs != [] { GraphUsrs(rs[..|rs| - 1]); }
  }

  lemma {:induction false} SameGraph(rs: seq<Record>, out: seq<Record>)
    requires |rs| == |out| && forall i | 0 <= i < |rs| :: out[i].usr == rs[i].usr && out[i].Bases() == rs[i].Bases()
    ensures BaseGraph(rs) == BaseGraph(out)
    decreases |rs|
  {
    if rs != [] { SameGraph(rs[..|rs| - 1], out[..|out| - 1]); }
  }

  lemma OriginalGraph(mixins: set<string>, rs: seq<Record>, out: seq<Record>)
    requires HasForm(mixins, rs, out)
    ensures BaseGraph(out[..|rs|]) == BaseGraph(rs)
  {
    forall i | 0 <= i < |rs| ensures out[..|rs|][i].usr == rs[i].usr && out[..|rs|][i].Bases() == rs[i].Bases() {
      BasesConserved(mixins, rs, out, i);
      assert SameEdges(out[i], Migrated(mixins, rs[i]));
    }
    SameGraph(rs, out[..|rs|]);
  }

  lemma GraphGrows(out: seq<Record>, n: nat)
    requires 0 < n <= |out|
    ensures BaseGraph(out[..n]) == BaseGraph(out[..n - 1])[out[n - 1].usr := BaseUsrs(out[n - 1].Bases())]
  {
    assert out[..n][..n - 1] == out[..n - 1];
  }

  lemma {:induction false} ResultGraph(mixins: set<string>, rs: seq<Record>, out: seq<Record>, n: nat)
    requires HasForm(mixins, rs, out) && NoSiblingUsr(rs) && |rs| <= n <= |out|
    ensures GraphExtends(BaseGraph(rs), BaseGraph(out[..n]))
    decreases n
  {
    if n == |rs| {
      OriginalGraph(mixins, rs, out);
    } else {
      ResultGraph(mixins, rs, out, n - 1);
      var u := out[n - 1].usr;
      assert SiblingEdges(mixins, rs, out[n - 1]);
      SiblingIsNew(mixins, rs, out[n - 1]);
      GraphGrows(out, n);
      OneMoreNode(BaseGraph(rs), BaseGraph(out[..n - 1]), u, BaseUsrs(out[n - 1].Bases()));
    }
  }

  lemma SiblingIsNew(mixins: set<string>, rs: seq<Record>, x: Record)
    requires NoSiblingUsr(rs) && SiblingEdges(mixins, rs, x)
    ensures EndsWith(x.usr, "#mixin_impl") && x.usr !in BaseGraph(rs)
  {
    GraphUsrs(rs);
    var i :| 0 <= i < |rs| && x.usr == ImplUsr(rs[i].usr);
    EndsInSuffix(rs[i].usr, "#mixin_impl");
  }

  lemma EndsInSuffix(s: string, suffix: string)
    ensures EndsWith(s + suffix, suffix)
  {
    assert (s + suffix)[|s|..] == suffix;
  }

  lemma OneMoreNode(g: Graph, h: Graph, u: string, bases: seq<string>)
    requires GraphExtends(g, h) && u !in g && EndsWith(u, "#mixin_impl")
    ensures GraphExtends(g, h[u := bases])
  {
  }

  lemma ReachesInLarger(g: Graph, h: Graph, a: string, u: string)
    requires GraphExtends(g, h) && Reaches(g, a, u)
    ensures Reaches(h, a, u)
  {
    var p :| PathFromTo(g, p, a, u);
    forall i | 0 <= i < |p| - 1 ensures Edge(h, p[i], p[i + 1]) { assert Edge(g, p[i], p[i + 1]); }
    assert PathFromTo(h, p, a, u);
  }

  /** A mixin is somebody's base. */
  lemma MixinIsABase(rs: seq<Record>, u: string)
    requires IsMixin(rs, u)
    ensures exists i, j | 0 <= i < |rs| && 0 <= j < |rs[i].Bases()| :: rs[i].Bases()[j].usr == u
  {
    if Applied(rs, u) {
      var i, j :| 0 <= i < |rs| && 0 <= j < |rs[i].mixins| && rs[i].mixins[j].usr == u;
      var k := if rs[i].baseClass.Some? then j + 1 else j;
      assert rs[i].Bases()[k].usr == u;
    } else {
      var a :| Applied(rs, a) && Reaches(BaseGraph(rs), a, u);
      var p :| PathFromTo(BaseGraph(rs), p, a, u);
      assert Edge(BaseGraph(rs), p[|p| - 2], u);
      EdgeIsABase(rs, p[|p| - 2], u);
    }
  }

  lemma {:induction false} EdgeIsABase(rs: seq<Record>, v: string, u: string)
    requires Edge(BaseGraph(rs), v, u)
    ensures exists i, j | 0 <= i < |rs| && 0 <= j < |rs[i].Bases()| :: rs[i].Bases()[j].usr == u
    decreases |rs|
  {
    var last := |rs| - 1;
    if rs[last].usr == v {
      var j :| 0 <= j < |rs[last].Bases()| && BaseUsrs(rs[last].Bases())[j] == u;
      assert rs[last].Bases()[j].usr == u;
    } else {
      EdgeIsABase(rs[..last], v, u);
      var i, j :| 0 <= i < last && 0 <= j < |rs[..last][i].Bases()| && rs[..last][i].Bases()[j].usr == u;
      assert rs[i].Bases()[j].usr == u;
    }
  }

  lemma ResultApplies(mixins: set<string>, rs: seq<Record>, out: seq<Record>, a: string)
    requires IsDecision(rs, mixins) && HasForm(mixins, rs, out)
    ensures Applied(rs, a) ==> Applied(out, a)
    ensures Applied(out, a) ==> IsMixin(rs, a)
  {
    if Applied(rs, a) {
      var i, j :| 0 <= i < |rs| && 0 <= j < |rs[i].mixins| && rs[i].mixins[j].usr == a;
      assert SameEdges(out[i], Migrated(mixins, rs[i]));
      var k := if Migrated(mixins, rs[i]) == rs[i] then j else j + 1;
      assert out[i].mixins[k].usr == a;
    }
    if Applied(out, a) {
      var i, j :| 0 <= i < |out| && 0 <= j < |out[i].mixins| && out[i].mixins[j].usr == a;
      if i < |rs| {
        assert SameEdges(out[i], Migrated(mixins, rs[i]));
        if Migrated(mixins, rs[i]) == rs[i] {
          assert rs[i].mixins[j].usr == a;
        } else if j > 0 {
          assert rs[i].mixins[j - 1].usr == a;
        }
      } else {
        assert SiblingEdges(mixins, rs, out[i]);
      }
    }
  }

  /** The decision is a fixed point: asked again of the result, it is the same. */
  lemma DecisionIsStable(mixins: set<string>, rs: seq<Record>, out: seq<Record>, u: string)
    requires IsDecision(rs, mixins) && HasForm(mixins, rs, out) && NoSiblingUsr(rs)
    ensures IsMixin(out, u) <==> IsMixin(rs, u)
  {
    var g, h := BaseGraph(rs), BaseGraph(out);
    ResultGraph(mixins, rs, out, |out|);
    assert out[..|out|] == out;
    if IsMixin(rs, u) {
      if Applied(rs, u) {
        ResultApplies(mixins, rs, out, u);
      } else {
        var a :| Applied(rs, a) && Reaches(g, a, u);
        ResultApplies(mixins, rs, out, a);
        ReachesInLarger(g, h, a, u);
      }
    }
    if IsMixin(out, u) {
      if Applied(out, u) {
        ResultApplies(mixins, rs, out, u);
      } else {
        var a :| Applied(out, a) && Reaches(h, a, u);
        ResultApplies(mixins, rs, out, a);
        forall v, c | v in mixins && Edge(h, v, c) ensures c in mixins {
          MixinIsABase(rs, v);
          assert v in g;
          MixinIsFromSome(rs, v);
          FromSomeStep(g, AppliedUsrs(rs), v, c);
          MixinIsFromSome(rs, c);
        }
        var p :| PathFromTo(h, p, a, u);
        ClosedHoldsReachable(h, mixins, a, p, u);
      }
    }
  }

  // ----- the pass -----

  ghost predicate UsrsUnique(rs: seq<Record>) {
    forall i, j | 0 <= i < j < |rs| :: rs[i].usr != rs[j].usr
  }

  method BuildSiblings(mixins: set<string>, fs: seq<Function>, rs: seq<Record>)
      returns (siblings: seq<Record>, factories: map<string, seq<Method>>)
    requires UsrsUnique(rs)
    ensures siblings == Siblings(mixins, fs, rs, rs)
    ensures forall i | 0 <= i < |rs| ::
      if Needs(mixins, fs, rs, rs[i]) then rs[i].usr in factories && factories[rs[i].usr] == MixinFactories(rs[i])
          else rs[i].usr !in factories
  {
    siblings, factories := [], map[];
    for i := 0 to |rs|
      invariant siblings == Siblings(mixins, fs, rs, rs[..i])
      invariant forall k | 0 <= k < i ::
        if Needs(mixins, fs, rs, rs[k]) then rs[k].usr in factories && factories[rs[k].usr] == MixinFactories(rs[k])
            else rs[k].usr !in factories
      invariant forall k | i <= k < |rs| :: rs[k].usr !in factories
    {
      assert rs[..i + 1][..i] == rs[..i];
      if Needs(mixins, fs, rs, rs[i]) {
        siblings := siblings + [ImplRecord(rs[i])];
        factories := factories[rs[i].usr := MixinFactories(rs[i])];
      }
    }
    assert rs[..|rs|] == rs;
  }

  method AddFactories(mixins: set<string>, fs: seq<Function>, rs: seq<Record>, factories: map<string, seq<Method>>)
      returns (r: seq<Record>)
    requires UsrsUnique(rs)
    requires forall i | 0 <= i < |rs| ::
      if Needs(mixins, fs, rs, rs[i]) then rs[i].usr in factories && factories[rs[i].usr] == MixinFactories(rs[i])
          else rs[i].usr !in factories
    ensures r == WithFactoriesAll(mixins, fs, rs)
  {
    r := rs;
    var left := factories;
    for i := 0 to |rs|
      invariant |r| == |rs| && forall k | 0 <= k < i :: r[k] == WithFactories(mixins, fs, rs, rs[k])
      invariant forall k | i <= k < |rs| :: r[k] == rs[k]
      invariant forall k | i <= k < |rs| :: Held(left, rs[k].usr) == Held(factories, rs[k].usr)
    {
      assert Held(left, rs[i].usr) == Held(factories, rs[i].usr);
      if r[i].usr in left {
        r := r[i := r[i].(methods := r[i].methods + left[r[i].usr])];
        left := left - {rs[i].usr};
      }
    }
  }

  function Held(m: map<string, seq<Method>>, u: string): (bool, seq<Method>) {
    if u in m then (true, m[u]) else (false, [])
  }

  /** What the pass leaves, when there are mixins at all. */
  ghost predicate Outcome(mixins: set<string>, fs: seq<Function>, rs: seq<Record>, outFs: seq<Function>,
                          out: seq<Record>,
                          rewrite: map<string, string>, closures: map<string, set<string>>) {
    && rewrite == Rewrites(mixins, fs, MigratedAll(mixins, rs), Extended(mixins, fs, rs))
    && AncestryOf(rs, closures)
    && |outFs| == |fs| && (forall i | 0 <= i < |fs|
                           :: outFs[i] == fs[i].(body := VisitStmts(FactoryHooks(rewrite), fs[i].body)))
    && Finishes(rewrite, closures, Extended(mixins, fs, rs), out)
  }

  /** Some rewrite of construction sites and some ancestry, both as the input determines them, explain the output. */
  ghost predicate Formed(mixins: set<string>, fs: seq<Function>, rs: seq<Record>, outFs: seq<Function>,
                         out: seq<Record>) {
    && IsDecision(rs, mixins) && HasForm(mixins, rs, out)
    && if mixins == {} then outFs == fs && out == rs
       else exists rewrite, closures :: Outcome(mixins, fs, rs, outFs, out, rewrite, closures)
  }

  ghost predicate AncestryOf(rs: seq<Record>, closures: map<string, set<string>>) {
    && (forall u :: u in closures <==> exists i | 0 <= i < |rs| :: rs[i].usr == u)
    && (forall u, v | u in closures :: v in closures[u] <==> Reaches(BaseGraph(rs), u, v))
  }

  ghost predicate Finishes(rewrite: map<string, string>, closures: map<string, set<string>>, rs: seq<Record>,
                           out: seq<Record>) {
    |out| == |rs| && forall i | 0 <= i < |rs| :: out[i] == FinishedRecord(rewrite, closures, rs[i])
  }

  lemma FinishedHasForm(mixins: set<string>, fs: seq<Function>, rs: seq<Record>, out: seq<Record>,
                        rewrite: map<string, string>, closures: map<string, set<string>>)
    requires Finishes(rewrite, closures, Extended(mixins, fs, rs), out)
    ensures HasForm(mixins, rs, out)
  {
    var extended := Extended(mixins, fs, rs);
    ExtendedHasForm(mixins, fs, rs);
    forall i | 0 <= i < |out| ensures SameEdges(out[i], extended[i]) {
      FinishingKeepsEdges(rewrite, closures, extended[i]);
    }
    forall i | |rs| <= i < |out| ensures SiblingEdges(mixins, rs, out[i]) {
      assert SiblingEdges(mixins, rs, extended[i]) && SameEdges(out[i], extended[i]);
    }
  }

  lemma NothingDecided(rs: seq<Record>)
    ensures HasForm({}, rs, rs)
  {
  }

  lemma AncestryBeforeMigration(mixins: set<string>, rs: seq<Record>, closures: map<string, set<string>>)
    requires AncestryOf(MigratedAll(mixins, rs), closures)
    ensures AncestryOf(rs, closures)
  {
    MigrationKeepsAncestry(mixins, rs);
    assert forall i | 0 <= i < |rs| :: MigratedAll(mixins, rs)[i].usr == rs[i].usr;
  }

  method Extend(mixins: set<string>, fs: seq<Function>, rs: seq<Record>) returns (out: seq<Record>)
    requires UsrsUnique(rs)
    ensures out == WithFactoriesAll(mixins, fs, rs) + Siblings(mixins, fs, rs, rs)
  {
    var siblings: seq<Record>, factories: map<string, seq<Method>> := BuildSiblings(mixins, fs, rs);
    out := AddFactories(mixins, fs, rs, factories);
    out := out + siblings;
  }

  method FormMixins(mixins: set<string>, fs: seq<Function>, rs: seq<Record>)
      returns (outFs: seq<Function>, out: seq<Record>, ghost rewrite: map<string, string>,
               ghost closures: map<string, set<string>>)
    requires UsrsUnique(rs)
    ensures Outcome(mixins, fs, rs, outFs, out, rewrite, closures)
  {
    var migrated := MigrateBases(mixins, rs);
    var ancestors: map<string, set<string>> := AncestorClosures(migrated);
    AncestryBeforeMigration(mixins, rs, ancestors);
    var extended := Extend(mixins, fs, migrated);
    var sites: map<string, string> := FactorySites(mixins, fs, migrated, extended);
    rewrite, closures := sites, ancestors;
    outFs := RewriteFunctions(sites, fs);
    out := FinishRecords(sites, ancestors, extended);
  }

  method ApplyMixinForms(fs: seq<Function>, rs: seq<Record>) returns (outFs: seq<Function>, out: seq<Record>)
    requires UsrsUnique(rs)
    ensures exists mixins :: Formed(mixins, fs, rs, outFs, out)
  {
    var decided: set<string> := MixinUsrs(rs);
    outFs, out := fs, rs;
    if decided == {} {
      NothingDecided(rs);
      assert Formed(decided, fs, rs, outFs, out);
      return;
    }
    ghost var rewrite: map<string, string>, closures: map<string, set<string>>;
    outFs, out, rewrite, closures := FormMixins(decided, fs, rs);
    FinishedHasForm(decided, fs, rs, out, rewrite, closures);
    assert Formed(decided, fs, rs, outFs, out);
  }

  method MigrateBases(mixins: set<string>, rs: seq<Record>) returns (r: seq<Record>)
    ensures r == MigratedAll(mixins, rs)
  {
    r := rs;
    for i := 0 to |rs|
      invariant |r| == |rs| && (forall k | 0 <= k < i :: r[k] == Migrated(mixins, rs[k]))
          && forall k | i <= k < |rs| :: r[k] == rs[k]
    {
      if r[i].baseClass.Some? && r[i].baseClass.value.usr in mixins {
        var base := r[i].baseClass.value;
        r := r[i := r[i].(baseClass := None, mixins := [base] + r[i].mixins)];
      }
    }
  }

  method FactorySites(mixins: set<string>, fs: seq<Function>, all: seq<Record>, rs: seq<Record>)
      returns (rewrite: map<string, string>)
    ensures rewrite == Rewrites(mixins, fs, all, rs)
  {
    rewrite := map[];
    for i := 0 to |rs|
      invariant rewrite == Rewrites(mixins, fs, all, rs[..i])
    {
      assert rs[..i + 1][..i] == rs[..i];
      if Needs(mixins, fs, all, rs[i]) {
        rewrite := rewrite[rs[i].usr := rs[i].name];
      }
    }
    assert rs[..|rs|] == rs;
  }

  method RewriteFunctions(rewrite: map<string, string>, fs: seq<Function>) returns (r: seq<Function>)
    ensures |r| == |fs| && forall i | 0 <= i < |fs|
        :: r[i] == fs[i].(body := VisitStmts(FactoryHooks(rewrite), fs[i].body))
  {
    r := fs;
    for i := 0 to |fs|
      invariant |r| == |fs| && forall k | i <= k < |fs| :: r[k] == fs[k]
      invariant forall k | 0 <= k < i :: r[k] == fs[k].(body := VisitStmts(FactoryHooks(rewrite), fs[k].body))
    {
      r := r[i := r[i].(body := VisitStmts(FactoryHooks(rewrite), r[i].body))];
    }
  }

  method FinishRecords(rewrite: map<string, string>, closures: map<string, set<string>>, rs: seq<Record>)
      returns (r: seq<Record>)
    ensures |r| == |rs| && forall i | 0 <= i < |rs| :: r[i] == FinishedRecord(rewrite, closures, rs[i])
  {
    r := rs;
    for i := 0 to |rs|
      invariant |r| == |rs| && (forall k | i <= k < |rs| :: r[k] == rs[k])
      invariant forall k | 0 <= k < i :: r[k] == VisitBodies(FactoryHooks(rewrite), rs[k])
    {
      r := r[i := VisitBodies(FactoryHooks(rewrite), r[i])];
    }
    for i := 0 to |rs|
      invariant |r| == |rs| && (forall k | i <= k < |rs| :: r[k] == VisitBodies(FactoryHooks(rewrite), rs[k]))
      invariant forall k | 0 <= k < i :: r[k] == FinishedRecord(rewrite, closures, rs[k])
    {
      r := r[i := Simplified(closures, r[i])];
    }
  }

  // ----- the sites find their factories -----

  lemma {:induction false} SimplifyingKeepsSignatures(ms: seq<Method>, ancestors: set<string>)
    ensures var r := IsChecks.SimplifyMethods(ms, ancestors);
            |r| == |ms| && forall k | 0 <= k < |ms| ::
              r[k].name == ms[k].name && r[k].isStatic == ms[k].isStatic && r[k].params == ms[k].params
    decreases |ms|
  {
    if ms != [] { SimplifyingKeepsSignatures(ms[1..], ancestors); }
  }

  lemma {:induction false} SameAssignments(r: Record, x: Record, fields: seq<Field>)
    requires r.usr == x.usr && r.name == x.name && r.origin == x.origin
    ensures AssignFields(r, fields) == AssignFields(x, fields)
    decreases |fields|
  {
    if fields != [] { SameAssignments(r, x, fields[1..]); }
  }

  /** In the result, a mixin constructed somewhere has a static factory for each constructor. */
  lemma FactoriesInResult(mixins: set<string>, fs: seq<Function>, rs: seq<Record>, out: seq<Record>,
                          rewrite: map<string, string>, closures: map<string, set<string>>, i: nat, c: Constructor)
    requires Finishes(rewrite, closures, Extended(mixins, fs, rs), out) && i < |rs|
    requires Needs(mixins, fs, MigratedAll(mixins, rs), rs[i]) && c in ImplConstructors(rs[i])
    ensures exists m | m in out[i].methods :: FactoryOf(m, c.constructorIndex, c.params)
  {
    assert out[i] == FinishedRecord(rewrite, closures, Extended(mixins, fs, rs)[i]);
    FactoryFinished(mixins, fs, rs, rewrite, closures, i, c);
  }

  lemma FactoryFinished(mixins: set<string>, fs: seq<Function>, rs: seq<Record>,
                        rewrite: map<string, string>, closures: map<string, set<string>>, i: nat, c: Constructor)
    requires i < |rs| && Needs(mixins, fs, MigratedAll(mixins, rs), rs[i]) && c in ImplConstructors(rs[i])
    ensures exists m | m in FinishedRecord(rewrite, closures, Extended(mixins, fs, rs)[i]).methods ::
              FactoryOf(m, c.constructorIndex, c.params)
  {
    var r, x := Migrated(mixins, rs[i]), Extended(mixins, fs, rs)[i];
    MigrationKeepsConstructors(mixins, rs[i]);
    var at := FactoryAt(r, c);
    FactoriesAppended(mixins, fs, rs, i, at);
    FinishingKeepsSignatures(rewrite, closures, x, |r.methods| + at);
    assert FactoryOf(FinishedRecord(rewrite, closures, x).methods[|r.methods| + at], c.constructorIndex, c.params);
  }

  lemma FactoriesAppended(mixins: set<string>, fs: seq<Function>, rs: seq<Record>, i: nat, at: nat)
    requires i < |rs| && Needs(mixins, fs, MigratedAll(mixins, rs), rs[i])
        && at < |MixinFactories(Migrated(mixins, rs[i]))|
    ensures var r, x := Migrated(mixins, rs[i]), Extended(mixins, fs, rs)[i];
            |r.methods| + at < |x.methods| && x.methods[|r.methods| + at] == MixinFactories(r)[at]
  {
    var r, x := Migrated(mixins, rs[i]), Extended(mixins, fs, rs)[i];
    assert x == WithFactories(mixins, fs, MigratedAll(mixins, rs), r);
    assert x.methods == r.methods + MixinFactories(r);
  }

  lemma MigrationKeepsConstructors(mixins: set<string>, r: Record)
    ensures ImplConstructors(Migrated(mixins, r)) == ImplConstructors(r)
  {
    SameAssignments(Migrated(mixins, r), r, r.fields);
  }

  lemma FactoryAt(r: Record, c: Constructor) returns (at: nat)
    requires c in ImplConstructors(r)
    ensures at < |MixinFactories(r)| && FactoryOf(MixinFactories(r)[at], c.constructorIndex, c.params)
  {
    FactoryPerConstructor(r, c.constructorIndex, c.params);
    var f :| f in MixinFactories(r) && FactoryOf(f, c.constructorIndex, c.params);
    at :| 0 <= at < |MixinFactories(r)| && MixinFactories(r)[at] == f;
  }

  lemma FinishingKeepsSignatures(rewrite: map<string, string>, closures: map<string, set<string>>, x: Record, at: nat)
    requires at < |x.methods|
    ensures var y := FinishedRecord(rewrite, closures, x);
            at < |y.methods| && y.methods[at] in y.methods && y.methods[at].name == x.methods[at].name
            && y.methods[at].isStatic == x.methods[at].isStatic && y.methods[at].params == x.methods[at].params
  {
    var visited := VisitBodies(FactoryHooks(rewrite), x);
    assert visited.methods[at] == VisitMethod(FactoryHooks(rewrite), x.methods[at]);
    if visited.usr in closures { SimplifyingKeepsSignatures(visited.methods, closures[visited.usr]); }
  }

  /** And the class its sites name is the mixin itself. */
  lemma {:induction false} SitesNameTheMixin(mixins: set<string>, fs: seq<Function>, all: seq<Record>, rs: seq<Record>,
                                             i: nat)
    requires i < |rs| && Needs(mixins, fs, all, rs[i])
    requires forall j | 0 <= j < |rs| && j != i :: rs[j].usr != rs[i].usr
    ensures rs[i].usr in Rewrites(mixins, fs, all, rs) && Rewrites(mixins, fs, all, rs)[rs[i].usr] == rs[i].name
    decreases |rs|
  {
    var last := |rs| - 1;
    if i < last {
      assert rs[..last][i] == rs[i];
      SitesNameTheMixin(mixins, fs, all, rs[..last], i);
    }
  }
}
