/**
 After the mixin rewrite every construction of a mixin, at any depth of any body,
 calls a static factory that the finished mixin has, with as many arguments as
 the factory takes.
 */
module MixinSites {
  import opened Wrappers
  import opened Ir
  import opened Strings
  import opened Visitor
  import opened Everywhere
  import opened MixinForms
  import IsChecks

  predicate Constructs(e: Expr) {
    e.RecordConstruct? || e.ConstructorCall?
  }

  /** The constructor a site means: an aggregate construction means the first. */
  function SiteIndex(e: Expr): nat
    requires Constructs(e)
  {
    if e.ConstructorCall? then e.constructorIndex else 0
  }

  /** What the pass starts from, once it has decided on the mixins. */
  datatype Input = Input(mixins: set<string>, fs: seq<Function>, rs: seq<Record>)
  {
    ghost predicate Valid() {
      IsDecision(rs, mixins) && UsrsUnique(rs) && NoSiblingUsr(rs)
    }

    /** No walked body constructs a `u`. */
    ghost predicate Nowhere(u: string) {
      && (forall k | 0 <= k < |fs| :: AllSs(NoSiteOf(u), fs[k].body))
      && forall k | 0 <= k < |rs| :: AllBodies(NoSiteOf(u), rs[k])
    }

    /** The record at `i` is a mixin that some body constructs. */
    ghost predicate Built(i: int) {
      0 <= i < |rs| && IsMixin(rs, rs[i].usr) && !Nowhere(rs[i].usr)
    }

    ghost function Extension(): seq<Record> { Extended(mixins, fs, rs) }

    ghost function Rewrite(): map<string, string> {
      Rewrites(mixins, fs, MigratedAll(mixins, rs), Extension())
    }

    ghost predicate Mixin(i: int) {
      0 <= i < |rs| && IsMixin(rs, rs[i].usr)
    }

    /** A site that constructs a mixin means a constructor the mixin has. */
    ghost predicate ValidSite(e: Expr) {
      Constructs(e) ==> forall i | Mixin(i) && rs[i].usr == e.typeUsr :: HasConstructor(rs[i], e)
    }

    ghost function ValidSites(): Check { Check(e => ValidSite(e), t => true) }

    /** And it is one of the mixins that are built somewhere. */
    ghost predicate KnownSite(e: Expr) {
      Constructs(e) ==> forall i | Mixin(i) && rs[i].usr == e.typeUsr :: Built(i) && HasConstructor(rs[i], e)
    }

    ghost function KnownSites(): Check { Check(e => KnownSite(e), t => true) }

    /** A site of the result calls a static method of the record at the mixin's place. */
    ghost predicate FindsFactory(out: seq<Record>, e: Expr) {
      Constructs(e) ==> forall i | Mixin(i) && rs[i].usr == e.typeUsr :: i < |out| && CallsStatic(out[i], e)
    }

    ghost function FoundFactories(out: seq<Record>): Check { Check(e => FindsFactory(out, e), t => true) }
  }

  ghost function NoSiteOf(u: string): Check { Check(e => !(Constructs(e) && e.typeUsr == u), t => true) }

  ghost predicate HasConstructor(r: Record, e: Expr)
    requires Constructs(e)
  {
    exists c | c in ImplConstructors(r) :: c.constructorIndex == SiteIndex(e) && |c.params| == |e.args|
  }

  ghost predicate CallsStatic(r: Record, e: Expr)
    requires Constructs(e)
  {
    && r.usr == e.typeUsr && (e.ConstructorCall? ==> e.constructorIndex == 0)
    && exists m | m in r.methods :: m.isStatic && |m.params| == |e.args| && e.typeName == r.name + "." + m.name
  }

  ghost predicate AllBodies(c: Check, r: Record) {
    && (forall k | 0 <= k < |r.constructors| :: AllSs(c, r.constructors[k].body))
    && (forall k | 0 <= k < |r.methods| && r.methods[k].body.Some? :: AllSs(c, r.methods[k].body.value))
    && (r.destructor.Some? ==> AllSs(c, r.destructor.value))
  }

  // ----- which mixins are built -----

  lemma SameCheck(u: string, ss: seq<Stmt>)
    ensures AllSs(NotBuilding(u), ss) <==> AllSs(NoSiteOf(u), ss)
  {
    var a, b := NotBuilding(u), NoSiteOf(u);
    if AllSs(a, ss) { BothSs(a, a, b, ss); }
    if AllSs(b, ss) { BothSs(b, b, a, ss); }
  }

  lemma SameCheckInRecord(u: string, r: Record)
    ensures AllBodies(NoSiteOf(u), r) <==> !BuiltInRecord(r, u)
  {
    forall ss ensures BuildsIn(ss, u) <==> !AllSs(NoSiteOf(u), ss) { SameCheck(u, ss); }
  }

  lemma BodiesMigrate(mixins: set<string>, r: Record, u: string)
    ensures BuiltInRecord(Migrated(mixins, r), u) <==> BuiltInRecord(r, u)
  {
  }

  lemma ConstructedSomewhere(x: Input, u: string)
    ensures Constructed(x.fs, MigratedAll(x.mixins, x.rs), u) <==> !x.Nowhere(u)
  {
    var migrated := MigratedAll(x.mixins, x.rs);
    forall k | 0 <= k < |x.fs| ensures BuildsIn(x.fs[k].body, u) <==> !AllSs(NoSiteOf(u), x.fs[k].body) {
      SameCheck(u, x.fs[k].body);
    }
    forall k | 0 <= k < |x.rs| ensures BuiltInRecord(migrated[k], u) <==> !AllBodies(NoSiteOf(u), x.rs[k]) {
      SameCheckInRecord(u, x.rs[k]);
      BodiesMigrate(x.mixins, x.rs[k], u);
    }
  }

  /** The mixins that get a sibling are those some walked body constructs. */
  lemma BuiltNeeds(x: Input, i: int)
    requires IsDecision(x.rs, x.mixins)
    ensures x.Built(i) <==> 0 <= i < |x.rs| && Needs(x.mixins, x.fs, MigratedAll(x.mixins, x.rs), x.rs[i])
  {
    if 0 <= i < |x.rs| { ConstructedSomewhere(x, x.rs[i].usr); }
  }

  // ----- one site -----

  lemma SiblingUsrIsNew(x: Input, r: Record)
    requires x.Valid() && SiblingEdges(x.mixins, x.rs, r)
    ensures forall i | 0 <= i < |x.rs| :: x.rs[i].usr != r.usr
  {
    var i :| 0 <= i < |x.rs| && r.usr == ImplUsr(x.rs[i].usr);
    EndsInSuffix(x.rs[i].usr, "#mixin_impl");
  }

  lemma RewriteNames(x: Input, i: nat)
    requires x.Valid() && x.Built(i)
    ensures x.rs[i].usr in x.Rewrite() && x.Rewrite()[x.rs[i].usr] == x.rs[i].name
  {
    var all := x.Extension();
    ExtendedHasForm(x.mixins, x.fs, x.rs);
    assert SameEdges(all[i], Migrated(x.mixins, x.rs[i]));
    forall j | 0 <= j < |all| && j != i ensures all[j].usr != all[i].usr {
      if j < |x.rs| {
        assert SameEdges(all[j], Migrated(x.mixins, x.rs[j]));
      } else {
        assert SiblingEdges(x.mixins, x.rs, all[j]);
        SiblingUsrIsNew(x, all[j]);
      }
    }
    BuiltNeeds(x, i);
    SitesNameTheMixin(x.mixins, x.fs, MigratedAll(x.mixins, x.rs), all, i);
  }

  lemma SiteFinds(x: Input, out: seq<Record>, closures: map<string, set<string>>, e: Expr, i: nat)
    requires x.Valid() && Finishes(x.Rewrite(), closures, x.Extension(), out)
    requires Constructs(e) && x.Built(i) && x.rs[i].usr == e.typeUsr && HasConstructor(x.rs[i], e)
    ensures i < |out| && Constructs(VisitExpr(FactoryHooks(x.Rewrite()), e))
    ensures CallsStatic(out[i], VisitExpr(FactoryHooks(x.Rewrite()), e))
  {
    RewriteNames(x, i);
    SiteCallsItsFactory(x.Rewrite(), e);
    var c :| c in ImplConstructors(x.rs[i]) && c.constructorIndex == SiteIndex(e) && |c.params| == |e.args|;
    BuiltNeeds(x, i);
    FactoriesInResult(x.mixins, x.fs, x.rs, out, x.Rewrite(), closures, i, c);
    FinishedHasForm(x.mixins, x.fs, x.rs, out, x.Rewrite(), closures);
    assert SameEdges(out[i], Migrated(x.mixins, x.rs[i]));
  }

  /** The rewrite turns valid sites into sites that find their factory, node by node. */
  lemma RewriteCarries(x: Input, out: seq<Record>, closures: map<string, set<string>>)
    requires x.Valid() && Finishes(x.Rewrite(), closures, x.Extension(), out)
    ensures Carries(FactoryHooks(x.Rewrite()), Some(x.KnownSites()), x.FoundFactories(out))
  {
    var h, known, c := FactoryHooks(x.Rewrite()), x.KnownSites(), x.FoundFactories(out);
    forall e | KnownE(Some(known), e) && Inside(c, VisitChildren(h, e)) ensures AllE(c, VisitExpr(h, e)) {
      assert x.KnownSite(e) by { assert AllE(known, e); }
      RewrittenNode(x, out, closures, e);
      assert c.node(VisitExpr(h, e));
    }
  }

  lemma SameSites(h: Hooks, e: Expr)
    ensures Constructs(VisitChildren(h, e)) <==> Constructs(e)
    ensures Constructs(e) ==> VisitChildren(h, e).typeUsr == e.typeUsr
  {
    match e
    case RecordConstruct(_, _, _, _, _) =>
    case ConstructorCall(_, _, _, _, _) =>
    case _ =>
  }

  lemma RewrittenNode(x: Input, out: seq<Record>, closures: map<string, set<string>>, e: Expr)
    requires x.Valid() && Finishes(x.Rewrite(), closures, x.Extension(), out) && x.KnownSite(e)
    ensures x.FindsFactory(out, VisitExpr(FactoryHooks(x.Rewrite()), e))
  {
    var y := VisitExpr(FactoryHooks(x.Rewrite()), e);
    SameSites(FactoryHooks(x.Rewrite()), e);
    if Constructs(y) {
      forall i | x.Mixin(i) && x.rs[i].usr == y.typeUsr ensures i < |out| && CallsStatic(out[i], y) {
        SiteFinds(x, out, closures, e, i);
      }
    }
  }

  /** Dropping checks that are always true keeps them so. */
  lemma SimplifyingCarries(x: Input, out: seq<Record>, ancestors: set<string>)
    ensures Carries(IsChecks.CheckHooks(ancestors), Some(x.FoundFactories(out)), x.FoundFactories(out))
  {
    var h, c := IsChecks.CheckHooks(ancestors), x.FoundFactories(out);
    forall e | KnownE(Some(c), e) && Inside(c, VisitChildren(h, e)) ensures AllE(c, VisitExpr(h, e)) {
      var n := VisitChildren(h, e);
      assert x.FindsFactory(out, e) by { assert AllE(c, e); }
      if !IsChecks.ProvablyTrue(n, ancestors) {
        SimplifiedNode(x, out, ancestors, e);
        assert c.node(n);
      }
    }
  }

  lemma SimplifiedNode(x: Input, out: seq<Record>, ancestors: set<string>, e: Expr)
    requires x.FindsFactory(out, e)
    ensures x.FindsFactory(out, VisitChildren(IsChecks.CheckHooks(ancestors), e))
  {
    var n := VisitChildren(IsChecks.CheckHooks(ancestors), e);
    if Constructs(n) {
      assert Constructs(e) && n.typeUsr == e.typeUsr && n.typeName == e.typeName && |n.args| == |e.args|;
      forall i | x.Mixin(i) && x.rs[i].usr == n.typeUsr ensures i < |out| && CallsStatic(out[i], n) {
        assert CallsStatic(out[i], e);
      }
    }
  }

  // ----- the bodies the pass adds itself -----

  lemma {:induction false} ForwardedIsValid(x: Input, params: seq<Param>, origin: Origin)
    ensures AllEs(x.KnownSites(), Forwarded(params, origin))
    decreases |params|
  {
    if params != [] {
      ForwardedIsValid(x, params[1..], origin);
      assert Forwarded(params, origin)[1..] == Forwarded(params[1..], origin);
    }
  }

  lemma FactoryIsValid(x: Input, r: Record, c: Constructor)
    requires x.Valid()
    ensures AllSs(x.KnownSites(), Factory(r, c).body.value)
  {
    var v, call := x.KnownSites(), ConstructorCall(ImplUsr(r.usr), ImplName(r.name), c.constructorIndex,
                                                   Forwarded(c.params, r.origin), r.origin);
    ForwardedIsValid(x, c.params, r.origin);
    EndsInSuffix(r.usr, "#mixin_impl");
    assert x.KnownSite(call);
    assert AllE(v, call);
    assert AllSs(v, []);
    assert [Return(Some(call))][1..] == [];
  }

  lemma AssignmentIsValid(x: Input, r: Record, f: Field)
    ensures AllS(x.KnownSites(), AssignField(r, f))
  {
    var v := x.KnownSites();
    var this_, value := This(ImplType(r), r.origin), Ref(f.name, f.ty, r.origin);
    assert v.ty(ImplType(r)) && v.ty(f.ty) && v.node(this_) && v.node(value);
    assert AllE(v, this_) && AllE(v, value);
  }

  lemma {:induction false} AssignmentsAreValid(x: Input, r: Record, fields: seq<Field>)
    ensures AllSs(x.KnownSites(), AssignFields(r, fields))
    decreases |fields|
  {
    if fields != [] {
      AssignmentsAreValid(x, r, fields[1..]);
      assert AssignFields(r, fields)[1..] == AssignFields(r, fields[1..]);
      AssignmentIsValid(x, r, fields[0]);
    }
  }

  lemma ConstructorsAreValid(x: Input, r: Record)
    requires AllBodies(x.KnownSites(), r)
    ensures forall k | 0 <= k < |ImplConstructors(r)| :: AllSs(x.KnownSites(), ImplConstructors(r)[k].body)
  {
    AssignmentsAreValid(x, r, r.fields);
  }

  lemma WithFactoriesIsValid(x: Input, r: Record)
    requires x.Valid() && AllBodies(x.KnownSites(), r)
    ensures AllBodies(x.KnownSites(), WithFactories(x.mixins, x.fs, MigratedAll(x.mixins, x.rs), r))
  {
    var cs := SortByIndex(ImplConstructors(r));
    forall i | 0 <= i < |cs| ensures AllSs(x.KnownSites(), Factory(r, cs[i]).body.value) {
      FactoryIsValid(x, r, cs[i]);
    }
  }

  /** So before the rewrite every body of every record is still valid. */
  lemma ExtensionIsValid(x: Input, k: nat)
    requires x.Valid() && (forall i | 0 <= i < |x.rs| :: AllBodies(x.KnownSites(), x.rs[i]))
    requires k < |x.Extension()|
    ensures AllBodies(x.KnownSites(), x.Extension()[k])
  {
    ExtensionEntry(x, k);
    if k < |x.rs| {
      MigratedIsValid(x, k);
      WithFactoriesIsValid(x, Migrated(x.mixins, x.rs[k]));
    } else {
      SiblingIsValid(x, x.Extension()[k]);
    }
  }

  lemma ExtensionEntry(x: Input, k: nat)
    requires k < |x.Extension()|
    ensures var migrated, entry := MigratedAll(x.mixins, x.rs), x.Extension()[k];
            if k < |x.rs| then entry == WithFactories(x.mixins, x.fs, migrated, Migrated(x.mixins, x.rs[k]))
            else IsSibling(x.mixins, migrated, entry)
  {
    var migrated := MigratedAll(x.mixins, x.rs);
    var siblings := Siblings(x.mixins, x.fs, migrated, migrated);
    assert x.Extension() == WithFactoriesAll(x.mixins, x.fs, migrated) + siblings;
    if k >= |x.rs| { assert x.Extension()[k] == siblings[k - |x.rs|]; }
  }

  lemma MigratedIsValid(x: Input, i: nat)
    requires i < |x.rs| && AllBodies(x.KnownSites(), x.rs[i])
    ensures AllBodies(x.KnownSites(), Migrated(x.mixins, x.rs[i]))
  {
  }

  lemma ImplIsValid(x: Input, r: Record)
    requires AllBodies(x.KnownSites(), r)
    ensures AllBodies(x.KnownSites(), ImplRecord(r))
  {
    ConstructorsAreValid(x, r);
  }

  lemma SiblingIsValid(x: Input, sibling: Record)
    requires forall i | 0 <= i < |x.rs| :: AllBodies(x.KnownSites(), x.rs[i])
    requires IsSibling(x.mixins, MigratedAll(x.mixins, x.rs), sibling)
    ensures AllBodies(x.KnownSites(), sibling)
  {
    var migrated := MigratedAll(x.mixins, x.rs);
    var i :| 0 <= i < |migrated| && sibling == ImplRecord(migrated[i]);
    MigratedIsValid(x, i);
    ImplIsValid(x, migrated[i]);
  }

  // ----- the whole result -----

  lemma BodiesCarried(h: Hooks, known: Check, c: Check, r: Record)
    requires Carries(h, Some(known), c) && AllBodies(known, r)
    ensures AllBodies(c, VisitBodies(h, r))
  {
    forall k | 0 <= k < |r.constructors| ensures AllSs(c, VisitStmts(h, r.constructors[k].body)) {
      CarriedSs(h, Some(known), c, r.constructors[k].body);
    }
    forall k | 0 <= k < |r.methods| && r.methods[k].body.Some?
        ensures AllSs(c, VisitStmts(h, r.methods[k].body.value)) {
      CarriedSs(h, Some(known), c, r.methods[k].body.value);
    }
    if r.destructor.Some? { CarriedSs(h, Some(known), c, r.destructor.value); }
  }

  lemma {:induction false} SimplifiedConstructors(cs: seq<Constructor>, ancestors: set<string>)
    ensures IsChecks.SimplifyConstructors(cs, ancestors) == VisitConstructors(IsChecks.CheckHooks(ancestors), cs)
    decreases |cs|
  {
    if cs != [] { SimplifiedConstructors(cs[1..], ancestors); }
  }

  lemma {:induction false} SimplifiedMethods(ms: seq<Method>, ancestors: set<string>)
    ensures IsChecks.SimplifyMethods(ms, ancestors) == VisitMethods(IsChecks.CheckHooks(ancestors), ms)
    decreases |ms|
  {
    if ms != [] { SimplifiedMethods(ms[1..], ancestors); }
  }

  lemma FinishedBodies(x: Input, out: seq<Record>, closures: map<string, set<string>>, r: Record)
    requires x.Valid() && Finishes(x.Rewrite(), closures, x.Extension(), out) && AllBodies(x.KnownSites(), r)
    ensures AllBodies(x.FoundFactories(out), FinishedRecord(x.Rewrite(), closures, r))
  {
    var visited := VisitBodies(FactoryHooks(x.Rewrite()), r);
    RewriteCarries(x, out, closures);
    BodiesCarried(FactoryHooks(x.Rewrite()), x.KnownSites(), x.FoundFactories(out), r);
    if visited.usr in closures {
      var ancestors := closures[visited.usr];
      SimplifyingCarries(x, out, ancestors);
      SimplifiedConstructors(visited.constructors, ancestors);
      SimplifiedMethods(visited.methods, ancestors);
      BodiesCarried(IsChecks.CheckHooks(ancestors), x.FoundFactories(out), x.FoundFactories(out), visited);
    }
  }

  // ----- a mixin with a site is built -----

  /** So far as the first `n` records go. */
  ghost predicate KnownUpTo(x: Input, n: nat, e: Expr) {
    x.ValidSite(e) && (Constructs(e) ==> forall i | x.Mixin(i) && i < n && x.rs[i].usr == e.typeUsr :: x.Built(i))
  }

  ghost function UpTo(x: Input, n: nat): Check { Check(e => KnownUpTo(x, n, e), t => true) }

  /** One more record: it is built, or no mixin, or has no site. */
  lemma OneMoreKnown(x: Input, n: nat)
    requires n < |x.rs|
    ensures Gives(UpTo(x, n), NoSiteOf(x.rs[n].usr), UpTo(x, n + 1))
    ensures x.Built(n) || !x.Mixin(n) ==> Gives(UpTo(x, n), UpTo(x, n), UpTo(x, n + 1))
  {
    forall e | KnownUpTo(x, n, e) && (!(Constructs(e) && e.typeUsr == x.rs[n].usr) || x.Built(n) || !x.Mixin(n))
      ensures KnownUpTo(x, n + 1, e)
    {
    }
  }

  /** The body has no site of a mixin that is not built. */
  ghost predicate OnlyBuilt(x: Input, ss: seq<Stmt>) {
    forall i | x.Mixin(i) && !x.Built(i) :: AllSs(NoSiteOf(x.rs[i].usr), ss)
  }

  lemma KnownStep(x: Input, n: nat, ss: seq<Stmt>)
    requires n < |x.rs| && AllSs(UpTo(x, n), ss) && (x.Mixin(n) && !x.Built(n) ==> AllSs(NoSiteOf(x.rs[n].usr), ss))
    ensures AllSs(UpTo(x, n + 1), ss)
  {
    OneMoreKnown(x, n);
    if x.Mixin(n) && !x.Built(n) {
      BothSs(UpTo(x, n), NoSiteOf(x.rs[n].usr), UpTo(x, n + 1), ss);
    } else {
      BothSs(UpTo(x, n), UpTo(x, n), UpTo(x, n + 1), ss);
    }
  }

  lemma {:induction false} BodyKnownUpTo(x: Input, n: nat, ss: seq<Stmt>)
    requires n <= |x.rs| && AllSs(x.ValidSites(), ss) && OnlyBuilt(x, ss)
    ensures AllSs(UpTo(x, n), ss)
    decreases n
  {
    if n == 0 {
      BothSs(x.ValidSites(), x.ValidSites(), UpTo(x, 0), ss);
    } else {
      BodyKnownUpTo(x, n - 1, ss);
      KnownStep(x, n - 1, ss);
    }
  }

  lemma BodyKnown(x: Input, ss: seq<Stmt>)
    requires AllSs(x.ValidSites(), ss) && OnlyBuilt(x, ss)
    ensures AllSs(x.KnownSites(), ss)
  {
    BodyKnownUpTo(x, |x.rs|, ss);
    BothSs(UpTo(x, |x.rs|), UpTo(x, |x.rs|), x.KnownSites(), ss);
  }

  lemma FunctionKnown(x: Input, k: nat)
    requires k < |x.fs| && AllSs(x.ValidSites(), x.fs[k].body)
    ensures AllSs(x.KnownSites(), x.fs[k].body)
  {
    forall i | x.Mixin(i) && !x.Built(i) ensures AllSs(NoSiteOf(x.rs[i].usr), x.fs[k].body) {
      assert x.Nowhere(x.rs[i].usr);
    }
    BodyKnown(x, x.fs[k].body);
  }

  lemma RecordKnown(x: Input, k: nat)
    requires k < |x.rs| && AllBodies(x.ValidSites(), x.rs[k])
    ensures AllBodies(x.KnownSites(), x.rs[k])
  {
    var r := x.rs[k];
    forall i | x.Mixin(i) && !x.Built(i) ensures AllBodies(NoSiteOf(x.rs[i].usr), r) {
      assert x.Nowhere(x.rs[i].usr);
    }
    forall j | 0 <= j < |r.constructors| ensures AllSs(x.KnownSites(), r.constructors[j].body) {
      BodyKnown(x, r.constructors[j].body);
    }
    forall j | 0 <= j < |r.methods| && r.methods[j].body.Some? ensures AllSs(x.KnownSites(), r.methods[j].body.value) {
      BodyKnown(x, r.methods[j].body.value);
    }
    if r.destructor.Some? { BodyKnown(x, r.destructor.value); }
  }

  /** If every site of the input that constructs a mixin means a constructor the mixin has, with
      the arity it has, then in what the pass returns every such site, at any depth of any body,
      calls a static factory of the finished mixin and passes it as many arguments as it takes. */
  lemma SitesFindTheirFactories(x: Input, outFs: seq<Function>, out: seq<Record>)
    requires x.Valid() && x.mixins != {} && Formed(x.mixins, x.fs, x.rs, outFs, out)
    requires forall i | 0 <= i < |x.fs| :: AllSs(x.ValidSites(), x.fs[i].body)
    requires forall i | 0 <= i < |x.rs| :: AllBodies(x.ValidSites(), x.rs[i])
    ensures forall i | 0 <= i < |outFs| :: AllSs(x.FoundFactories(out), outFs[i].body)
    ensures forall i | 0 <= i < |out| :: AllBodies(x.FoundFactories(out), out[i])
  {
    var rewrite, closures :| Outcome(x.mixins, x.fs, x.rs, outFs, out, rewrite, closures);
    RewriteCarries(x, out, closures);
    forall i | 0 <= i < |x.rs| ensures AllBodies(x.KnownSites(), x.rs[i]) { RecordKnown(x, i); }
    forall i | 0 <= i < |outFs| ensures AllSs(x.FoundFactories(out), outFs[i].body) {
      FunctionKnown(x, i);
      CarriedSs(FactoryHooks(x.Rewrite()), Some(x.KnownSites()), x.FoundFactories(out), x.fs[i].body);
    }
    forall i | 0 <= i < |out| ensures AllBodies(x.FoundFactories(out), out[i]) {
      ExtensionIsValid(x, i);
      FinishedBodies(x, out, closures, x.Extension()[i]);
    }
  }
}
