/**
 What disambiguation leaves: the name of each record by its place in the list, and
 what of a record or function changes when names do.
 */
module RecordNames {
  import opened Wrappers
  import opened Ir
  import opened Strings
  import opened Visitor
  import opened Rewriting
  import opened Disambiguation

  // ----- the name of the record at a place -----

  function Qualified(upper: Upper, r: Record): string {
    if r.namespace == "" then r.name else PascalCase(upper, r.namespace) + r.name
  }

  /** The earlier records with this one's bare name that are qualified alike. */
  function Before(upper: Upper, rs: seq<Record>, i: nat): set<nat>
    requires i < |rs|
  {
    set j: nat | j < i && rs[j].name == rs[i].name && Qualified(upper, rs[j]) == Qualified(upper, rs[i])
  }

  /** Alone with its bare name a record keeps it; otherwise it is qualified, and from the second on
      of those qualified alike, numbered. */
  ghost predicate NamedAs(upper: Upper, rs: seq<Record>, i: nat, final: string)
    requires i < |rs|
  {
    if forall j | 0 <= j < |rs| && j != i :: rs[j].name != rs[i].name then final == rs[i].name
    else
      var rank := |Before(upper, rs, i)|;
      final == Qualified(upper, rs[i]) + if rank == 0 then "" else Numeral(rank + 1)
  }

  function Same(texts: seq<string>, text: string, k: nat): set<nat>
    requires k <= |texts|
  {
    set l: nat | l < k && texts[l] == text
  }

  lemma {:induction false} CountIsSame(texts: seq<string>, text: string, k: nat)
    requires k <= |texts|
    ensures Count(texts[..k], text) == |Same(texts, text, k)|
    decreases k
  {
    if k > 0 {
      CountIsSame(texts, text, k - 1);
      assert texts[..k][..k - 1] == texts[..k - 1];
      if texts[k - 1] == text {
        assert Same(texts, text, k) == Same(texts, text, k - 1) + {k - 1};
      } else {
        assert Same(texts, text, k) == Same(texts, text, k - 1);
      }
    } else {
      assert Same(texts, text, k) == {};
    }
  }

  lemma {:induction false} ImageSize(places: seq<nat>, s: set<nat>)
    requires forall j, k | 0 <= j < k < |places| :: places[j] < places[k]
    requires forall l | l in s :: l < |places|
    ensures |set l | l in s :: places[l]| == |s|
    decreases |s|
  {
    if s != {} {
      var x :| x in s;
      ImageSize(places, s - {x});
      assert (set l | l in s :: places[l]) == (set l | l in s - {x} :: places[l]) + {places[x]};
      assert places[x] !in (set l | l in s - {x} :: places[l]);
    }
  }

  lemma RankIsBefore(upper: Upper, rs: seq<Record>, i: nat, k: nat)
    requires i < |rs| && k < |Places(rs, rs[i].name)| && Places(rs, rs[i].name)[k] == i
    ensures var texts := Candidates(upper, rs, Places(rs, rs[i].name));
            Count(texts[..k], texts[k]) == |Before(upper, rs, i)|
  {
    var places := Places(rs, rs[i].name);
    var texts := Candidates(upper, rs, places);
    CountIsSame(texts, texts[k], k);
    ImageSize(places, Same(texts, texts[k], k));
    BeforeIsImage(upper, rs, i, k);
  }

  lemma BeforeIsImage(upper: Upper, rs: seq<Record>, i: nat, k: nat)
    requires i < |rs| && k < |Places(rs, rs[i].name)| && Places(rs, rs[i].name)[k] == i
    ensures var places := Places(rs, rs[i].name);
            var texts := Candidates(upper, rs, places);
            Before(upper, rs, i) == set l | l in Same(texts, texts[k], k) :: places[l]
  {
    var places := Places(rs, rs[i].name);
    var texts := Candidates(upper, rs, places);
    forall j ensures j in Before(upper, rs, i) <==> exists l :: l in Same(texts, texts[k], k) && places[l] == j {
      if j in Before(upper, rs, i) {
        var l := PlaceBefore(rs, rs[i].name, j, k);
        assert l in Same(texts, texts[k], k);
      }
    }
  }

  lemma PlaceBefore(rs: seq<Record>, name: string, j: nat, k: nat) returns (l: nat)
    requires k < |Places(rs, name)| && j < Places(rs, name)[k] && rs[j].name == name
    ensures l < k && Places(rs, name)[l] == j
  {
    assert j in Places(rs, name);
    l :| l < |Places(rs, name)| && Places(rs, name)[l] == j;
  }

  lemma FinalIsNamed(upper: Upper, rs: seq<Record>, i: nat, k: nat)
    requires i < |rs| && k < |Places(rs, rs[i].name)| && Places(rs, rs[i].name)[k] == i
    ensures NamedAs(upper, rs, i, FinalName(upper, rs, rs[i].name, k))
  {
    AloneInPlaces(rs, i);
    RankIsBefore(upper, rs, i, k);
  }

  /** What a renaming that asks for the final names makes of each record of the list. */
  lemma AskedNames(upper: Upper, rs: seq<Record>, renames: map<string, string>, i: nat)
    requires i < |rs| && Asks(upper, rs, renames, rs[i].name)
    ensures NamedAs(upper, rs, i, if rs[i].usr in renames then renames[rs[i].usr] else rs[i].name)
  {
    var name := rs[i].name;
    assert i in Places(rs, name);
    var k :| 0 <= k < |Places(rs, name)| && Places(rs, name)[k] == i;
    FinalIsNamed(upper, rs, i, k);
    assert Entry(renames, rs[Places(rs, name)[k]].usr)
        == if FinalName(upper, rs, name, k) == name then None else Some(FinalName(upper, rs, name, k));
  }

  lemma AloneInPlaces(rs: seq<Record>, i: nat)
    requires i < |rs|
    ensures |Places(rs, rs[i].name)| <= 1 <==> forall j | 0 <= j < |rs| && j != i :: rs[j].name != rs[i].name
  {
    var places := Places(rs, rs[i].name);
    assert i in places;
    if |places| > 1 {
      assert places[0] < places[1];
      assert rs[places[0]].name == rs[places[1]].name == rs[i].name;
    }
  }

  // ----- what changes in a record or function -----

  predicate TypeRenamed(renames: map<string, string>, t: Type, u: Type) {
    u == if t.Record? && t.usr in renames then Type.Record(t.usr, renames[t.usr]) else t
  }

  predicate NodeRenamed(renames: map<string, string>, copies: bool, e: Expr, d: Expr) {
    d == if copies && e.RecordCopy? && e.typeUsr in renames
         then RecordCopy(e.target, e.typeUsr, renames[e.typeUsr], e.origin) else e
  }

  function NewName(renames: map<string, string>, usr: string, name: string): string {
    if usr in renames then renames[usr] else name
  }

  /** The class names of types and constructions follow the renaming, those of copies where `copies`
      says; nothing else changes. */
  function ClassNames(renames: map<string, string>, copies: bool): Rule {
    Rule((t, u) => TypeRenamed(renames, t, u), (usr, s: Site, z) => z == s.(name := NewName(renames, usr, s.name)),
         (e, d) => NodeRenamed(renames, copies, e, d), true)
  }

  ghost predicate BaseRenamed(renames: map<string, string>, b: BaseClass, c: BaseClass) {
    c == b.(name := NewName(renames, b.usr, b.name))
  }

  ghost predicate FieldsRenamed(renames: map<string, string>, fs: seq<Field>, gs: seq<Field>) {
    |gs| == |fs| && forall i | 0 <= i < |fs| ::
      gs[i] == fs[i].(ty := gs[i].ty) && TypeTo(ClassNames(renames, false), fs[i].ty, gs[i].ty)
  }

  ghost predicate InitRenamed(renames: map<string, string>, x: ConstructorInit, y: ConstructorInit) {
    match x
    case FieldInit(n, v) => y.FieldInit? && y.name == n && ExprTo(ClassNames(renames, true), v, y.value)
    case BaseInit(u, n, args) =>
      y.BaseInit? && y.usr == u && y.name == NewName(renames, u, n) && ExprsTo(ClassNames(renames, true), args, y.args)
  }

  ghost predicate ConstructorRenamed(renames: map<string, string>, c: Constructor, d: Constructor) {
    && d == c.(params := d.params, inits := d.inits, body := d.body)
    && ParamsTo(ClassNames(renames, true), c.params, d.params)
    && StmtsTo(ClassNames(renames, false), c.body, d.body)
    && |d.inits| == |c.inits| && forall i | 0 <= i < |c.inits| :: InitRenamed(renames, c.inits[i], d.inits[i])
  }

  ghost predicate BodyRenamed(renames: map<string, string>, b: Option<seq<Stmt>>, c: Option<seq<Stmt>>) {
    c.Some? == b.Some? && (b.Some? ==> StmtsTo(ClassNames(renames, false), b.value, c.value))
  }

  ghost predicate MethodRenamed(renames: map<string, string>, m: Method, n: Method) {
    && n == m.(returnType := n.returnType, params := n.params, body := n.body)
    && TypeTo(ClassNames(renames, false), m.returnType, n.returnType)
    && ParamsTo(ClassNames(renames, true), m.params, n.params) && BodyRenamed(renames, m.body, n.body)
  }

  ghost predicate FunctionRenamed(renames: map<string, string>, f: Function, g: Function) {
    && g == f.(returnType := g.returnType, params := g.params, body := g.body)
    && TypeTo(ClassNames(renames, false), f.returnType, g.returnType)
    && ParamsTo(ClassNames(renames, true), f.params, g.params)
    && StmtsTo(ClassNames(renames, false), f.body, g.body)
  }

  ghost predicate BasesRenamed(renames: map<string, string>, r: Record, x: Record) {
    && x.baseClass.Some? == r.baseClass.Some?
    && (r.baseClass.Some? ==> BaseRenamed(renames, r.baseClass.value, x.baseClass.value))
    && |x.mixins| == |r.mixins| && forall i | 0 <= i < |r.mixins| :: BaseRenamed(renames, r.mixins[i], x.mixins[i])
  }

  ghost predicate MembersRenamed(renames: map<string, string>, r: Record, x: Record) {
    && |x.constructors| == |r.constructors| && |x.methods| == |r.methods|
    && (forall i | 0 <= i < |r.constructors| :: ConstructorRenamed(renames, r.constructors[i], x.constructors[i]))
    && (forall i | 0 <= i < |r.methods| :: MethodRenamed(renames, r.methods[i], x.methods[i]))
    && BodyRenamed(renames, r.destructor, x.destructor)
  }

  ghost predicate RecordRenamed(renames: map<string, string>, r: Record, x: Record) {
    && x == RecordDecl(NewName(renames, r.usr, r.name), r.usr, r.namespace, x.fields, x.staticFields, x.constructors,
                       x.methods, x.baseClass, x.mixins, x.destructor, r.origin)
    && FieldsRenamed(renames, r.fields, x.fields) && FieldsRenamed(renames, r.staticFields, x.staticFields)
    && BasesRenamed(renames, r, x) && MembersRenamed(renames, r, x)
  }

  lemma SiteFollows(renames: map<string, string>, h: Hooks, usr: string, s: Site)
    requires forall u, z :: h.onConstruct(u, z) == RenamedSite(renames, u, z)
    ensures Landed(h, usr, s) == s.(name := NewName(renames, usr, s.name))
  {
  }

  lemma BodiesFollow(renames: map<string, string>)
    ensures Follows(BodyHooks(renames), ClassNames(renames, false))
  {
    var h, r := BodyHooks(renames), ClassNames(renames, false);
    forall t ensures r.ty(t, h.onType(t)) { }
    forall usr, s ensures r.site(usr, s, Landed(h, usr, s)) { SiteFollows(renames, h, usr, s); }
    forall e ensures r.node(e, h.onExpr(e)) { }
  }

  lemma ExprsFollow(renames: map<string, string>)
    ensures Follows(ExprHooks(renames), ClassNames(renames, true))
  {
    var h, r := ExprHooks(renames), ClassNames(renames, true);
    forall t ensures r.ty(t, h.onType(t)) { }
    forall usr, s ensures r.site(usr, s, Landed(h, usr, s)) { SiteFollows(renames, h, usr, s); }
    forall e ensures r.node(e, h.onExpr(e)) { }
  }

  lemma FieldsFollow(renames: map<string, string>, fs: seq<Field>)
    ensures FieldsRenamed(renames, fs, RenamedFields(renames, fs))
  {
    BodiesFollow(renames);
    forall f | f in fs ensures TypeTo(ClassNames(renames, false), f.ty, VisitType(BodyHooks(renames), f.ty)) {
      VisitedType(BodyHooks(renames), ClassNames(renames, false), f.ty);
    }
  }

  lemma InitFollows(renames: map<string, string>, x: ConstructorInit)
    ensures InitRenamed(renames, x, RenamedInit(renames, x))
  {
    ExprsFollow(renames);
    match x
    case FieldInit(_, v) => VisitedExpr(ExprHooks(renames), ClassNames(renames, true), v);
    case BaseInit(_, _, args) => VisitedExprs(ExprHooks(renames), ClassNames(renames, true), args);
  }

  lemma ConstructorFollows(renames: map<string, string>, c: Constructor)
    ensures ConstructorRenamed(renames, c, RenamedConstructor(renames, c))
  {
    BodiesFollow(renames);
    ExprsFollow(renames);
    VisitedParams(ExprHooks(renames), ClassNames(renames, true), c.params);
    VisitedStmts(BodyHooks(renames), ClassNames(renames, false), c.body);
    forall i | 0 <= i < |c.inits| ensures InitRenamed(renames, c.inits[i], RenamedInits(renames, c.inits)[i]) {
      InitFollows(renames, c.inits[i]);
    }
  }

  lemma MethodFollows(renames: map<string, string>, m: Method)
    ensures MethodRenamed(renames, m, RenamedMethod(renames, m))
  {
    BodiesFollow(renames);
    ExprsFollow(renames);
    VisitedType(BodyHooks(renames), ClassNames(renames, false), m.returnType);
    VisitedParams(ExprHooks(renames), ClassNames(renames, true), m.params);
    if m.body.Some? { VisitedStmts(BodyHooks(renames), ClassNames(renames, false), m.body.value); }
  }

  /** In a function the class names of types, constructions and, in defaults, copies follow the
      renaming, and nothing else changes. */
  lemma FunctionFollows(renames: map<string, string>, f: Function)
    ensures FunctionRenamed(renames, f, RenamedFunction(renames, f))
  {
    BodiesFollow(renames);
    ExprsFollow(renames);
    VisitedType(BodyHooks(renames), ClassNames(renames, false), f.returnType);
    VisitedParams(ExprHooks(renames), ClassNames(renames, true), f.params);
    VisitedStmts(BodyHooks(renames), ClassNames(renames, false), f.body);
  }

  lemma MembersFollow(renames: map<string, string>, r: Record)
    ensures MembersRenamed(renames, r, RenamedRecord(renames, r))
  {
    forall c | c in r.constructors ensures ConstructorRenamed(renames, c, RenamedConstructor(renames, c)) {
      ConstructorFollows(renames, c);
    }
    forall m | m in r.methods ensures MethodRenamed(renames, m, RenamedMethod(renames, m)) {
      MethodFollows(renames, m);
    }
    BodiesFollow(renames);
    if r.destructor.Some? {
      VisitedStmts(BodyHooks(renames), ClassNames(renames, false), r.destructor.value);
    }
  }

  /** In a record its own name does, and its bases', fields', methods' and constructors' class names;
      every list keeps its length and order, and nothing else changes. */
  lemma RecordFollows(renames: map<string, string>, r: Record)
    ensures RecordRenamed(renames, r, RenamedRecord(renames, r))
  {
    FieldsFollow(renames, r.fields);
    FieldsFollow(renames, r.staticFields);
    MembersFollow(renames, r);
  }
}
