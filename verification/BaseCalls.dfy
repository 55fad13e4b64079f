/**
 Calls that name a base explicitly (`Base::method()`): which of them Dart's
 `super` reaches, given the order in which mixins are applied.
 */
module BaseCalls {
  import opened Wrappers
  import opened Ir
  import opened Visitor
  import opened Reachability
  import opened Everywhere
  import opened Rewriting

  /** Records by usr; of two with one usr the later counts. */
  type Hierarchy = map<string, Record>

  /** Record `k` is the last one of this usr. */
  ghost predicate LastOf(records: seq<Record>, usr: string, k: int) {
    0 <= k < |records| && records[k].usr == usr && forall j | k < j < |records| :: records[j].usr != usr
  }

  ghost predicate Describes(h: Hierarchy, records: seq<Record>) {
    && (forall u :: u in h <==> exists k :: LastOf(records, u, k))
    && (forall u, k | LastOf(records, u, k) :: h[u] == records[k])
  }

  function ByUsr(records: seq<Record>): Hierarchy {
    if records == [] then map[]
    else var r := records[|records| - 1]; ByUsr(records[..|records| - 1])[r.usr := r]
  }

  lemma {:induction false} ByUsrDescribes(records: seq<Record>)
    ensures Describes(ByUsr(records), records)
    decreases |records|
  {
    if records != [] {
      var k := |records| - 1;
      ByUsrDescribes(records[..k]);
      OneMore(ByUsr(records[..k]), records, k);
    }
  }

  lemma OneMore(h: Hierarchy, records: seq<Record>, k: nat)
    requires |records| == k + 1 && Describes(h, records[..k])
    ensures Describes(h[records[k].usr := records[k]], records)
  {
    var r, was := records[k], records[..k];
    forall u, j ensures LastOf(records, u, j) <==> if r.usr == u then j == k else LastOf(was, u, j) {
      assert forall i | 0 <= i < k :: records[i] == was[i];
      if LastOf(records, u, j) && j < k { assert records[k] == r; }
    }
    assert LastOf(records, r.usr, k);
  }

  function Deps(h: Hierarchy, usr: string): seq<BaseClass> {
    if usr in h then h[usr].Bases() else []
  }

  predicate Declares(h: Hierarchy, usr: string, name: string) {
    usr in h && exists m | m in h[usr].methods :: m.name == name
  }

  // ----- the order mixins are applied in -----

  datatype Expansion = Expansion(seen: set<string>, order: seq<BaseClass>)

  ghost predicate Within(h: Hierarchy, universe: set<string>, bases: seq<BaseClass>) {
    && (forall b | b in bases :: b.usr in universe)
    && (forall u, b | u in h && b in h[u].Bases() :: b.usr in universe)
  }

  function Universe(h: Hierarchy, bases: seq<BaseClass>): (universe: set<string>)
    ensures Within(h, universe, bases)
  {
    (set b | b in bases :: b.usr) + (set u, i | u in h && 0 <= i < |h[u].Bases()| :: h[u].Bases()[i].usr)
  }

  /** Each base after everything it is itself built from, and only the first time it is met. */
  function Expand(h: Hierarchy, ghost universe: set<string>, bases: seq<BaseClass>, seen: set<string>): (x: Expansion)
    requires Within(h, universe, bases) && seen <= universe
    ensures seen <= x.seen <= universe
    decreases |universe - seen|, |bases|
  {
    if bases == [] then Expansion(seen, [])
    else if bases[0].usr in seen then Expand(h, universe, bases[1..], seen)
    else
      var b := bases[0];
      assert Within(h, universe, Deps(h, b.usr));
      assert universe - (seen + {b.usr}) < universe - seen;
      ShrinkingSet(universe - (seen + {b.usr}), universe - seen);
      var inner := Expand(h, universe, Deps(h, b.usr), seen + {b.usr});
      assert universe - inner.seen < universe - seen;
      ShrinkingSet(universe - inner.seen, universe - seen);
      var rest := Expand(h, universe, bases[1..], inner.seen);
      Expansion(rest.seen, inner.order + [b] + rest.order)
  }

  function ApplicationOrder(h: Hierarchy, bases: seq<BaseClass>): seq<BaseClass> {
    Expand(h, Universe(h, bases), bases, {}).order
  }

  function Usrs(bases: seq<BaseClass>): set<string> {
    set b | b in bases :: b.usr
  }

  /** `a` is built, directly or not, from `b`. */
  ghost predicate BuiltFrom(h: Hierarchy, a: string, b: string) {
    Reaches(Edges(h), a, b)
  }

  function Edges(h: Hierarchy): Graph {
    map u | u in h :: BaseUsrs(h[u].Bases())
  }

  ghost predicate Acyclic(h: Hierarchy) {
    forall u :: !BuiltFrom(h, u, u)
  }

  lemma DepBuiltFrom(h: Hierarchy, u: string, b: BaseClass)
    requires b in Deps(h, u)
    ensures Edge(Edges(h), u, b.usr) && BuiltFrom(h, u, b.usr)
  {
    var i :| 0 <= i < |Deps(h, u)| && Deps(h, u)[i] == b;
    assert Edges(h)[u][i] == b.usr;
    EdgeReaches(Edges(h), u, b.usr);
  }

  ghost predicate AllDistinct(order: seq<BaseClass>) {
    forall i, j | 0 <= i < j < |order| :: order[i].usr != order[j].usr
  }

  ghost predicate Listed(bases: seq<BaseClass>, seen: set<string>) {
    forall b | b in bases :: b.usr in seen
  }

  /** `usr` is one of `bases`, or one of them is built from it. */
  ghost predicate Wanted(h: Hierarchy, bases: seq<BaseClass>, usr: string) {
    exists b | b in bases :: b.usr == usr || BuiltFrom(h, b.usr, usr)
  }

  ghost predicate AllWanted(h: Hierarchy, bases: seq<BaseClass>, order: seq<BaseClass>) {
    forall e | e in order :: Wanted(h, bases, e.usr)
  }

  /** Parts first: whatever an entry is directly built from is in `seen` or precedes it. */
  ghost predicate PartsFirst(h: Hierarchy, seen: set<string>, order: seq<BaseClass>) {
    forall j | 0 <= j < |order| :: Listed(Deps(h, order[j].usr), seen + Usrs(order[..j]))
  }

  /** One entry per class, exactly the newly seen ones, each wanted by some listed base. */
  ghost predicate Contents(h: Hierarchy, bases: seq<BaseClass>, seen: set<string>, x: Expansion) {
    && Usrs(x.order) == x.seen - seen
    && AllDistinct(x.order)
    && Listed(bases, x.seen)
    && AllWanted(h, bases, x.order)
  }

  lemma UsrsAppend(a: seq<BaseClass>, b: seq<BaseClass>)
    ensures Usrs(a + b) == Usrs(a) + Usrs(b)
  {
    forall u | u in Usrs(a) + Usrs(b) ensures u in Usrs(a + b) {
      if u in Usrs(a) { var x :| x in a && x.usr == u; assert x in a + b; }
      else { var x :| x in b && x.usr == u; assert x in a + b; }
    }
  }

  lemma DistinctAppend(a: seq<BaseClass>, b: seq<BaseClass>)
    requires AllDistinct(a) && AllDistinct(b) && Usrs(a) !! Usrs(b)
    ensures AllDistinct(a + b)
  {
    forall i, j | 0 <= i < j < |a + b| ensures (a + b)[i].usr != (a + b)[j].usr {
      if i < |a| <= j {
        assert a[i].usr in Usrs(a) && b[j - |a|].usr in Usrs(b);
      }
    }
  }

  lemma WantedByDep(h: Hierarchy, b: BaseClass, bases: seq<BaseClass>, usr: string)
    requires b in bases && Wanted(h, Deps(h, b.usr), usr)
    ensures BuiltFrom(h, b.usr, usr) && Wanted(h, bases, usr)
  {
    var d :| d in Deps(h, b.usr) && (d.usr == usr || BuiltFrom(h, d.usr, usr));
    DepBuiltFrom(h, b.usr, d);
    if d.usr != usr { ReachesTransitive(Edges(h), b.usr, d.usr, usr); }
  }

  lemma CombineContents(h: Hierarchy, bases: seq<BaseClass>, seen: set<string>, inner: Expansion, rest: Expansion)
    requires bases != [] && bases[0].usr !in seen
    requires Contents(h, Deps(h, bases[0].usr), seen + {bases[0].usr}, inner) && seen + {bases[0].usr} <= inner.seen
    requires Contents(h, bases[1..], inner.seen, rest) && inner.seen <= rest.seen
    ensures Contents(h, bases, seen, Expansion(rest.seen, inner.order + [bases[0]] + rest.order))
  {
    var b := bases[0];
    var order := inner.order + [b] + rest.order;
    UsrsAppend(inner.order, [b]);
    UsrsAppend(inner.order + [b], rest.order);
    assert Usrs([b]) == {b.usr} by { assert b in [b]; }
    DistinctAppend(inner.order, [b]);
    DistinctAppend(inner.order + [b], rest.order);
    forall e | e in order ensures Wanted(h, bases, e.usr) {
      if e in inner.order {
        WantedByDep(h, b, bases, e.usr);
      } else if e != b {
        var c :| c in bases[1..] && (c.usr == e.usr || BuiltFrom(h, c.usr, e.usr));
        assert c in bases;
      }
    }
  }

  lemma {:induction false} ExpandContents(h: Hierarchy, universe: set<string>, bases: seq<BaseClass>, seen: set<string>)
    requires Within(h, universe, bases) && seen <= universe
    ensures Contents(h, bases, seen, Expand(h, universe, bases, seen))
    decreases |universe - seen|, |bases|
  {
    if bases == [] {
    } else if bases[0].usr in seen {
      ExpandContents(h, universe, bases[1..], seen);
      var x := Expand(h, universe, bases[1..], seen);
      forall e | e in x.order ensures Wanted(h, bases, e.usr) {
        var c :| c in bases[1..] && (c.usr == e.usr || BuiltFrom(h, c.usr, e.usr));
        assert c in bases;
      }
    } else {
      var inner, rest := ExpandStep(h, universe, bases, seen);
      ExpandContents(h, universe, Deps(h, bases[0].usr), seen + {bases[0].usr});
      ExpandContents(h, universe, bases[1..], inner.seen);
      CombineContents(h, bases, seen, inner, rest);
    }
  }

  /** The two expansions an unseen first base leads to. */
  lemma ExpandStep(h: Hierarchy, universe: set<string>, bases: seq<BaseClass>, seen: set<string>)
      returns (inner: Expansion, rest: Expansion)
    requires Within(h, universe, bases) && seen <= universe && bases != [] && bases[0].usr !in seen
    ensures var b := bases[0];
            && Within(h, universe, Deps(h, b.usr)) && seen + {b.usr} <= universe
            && |universe - (seen + {b.usr})| < |universe - seen|
            && inner == Expand(h, universe, Deps(h, b.usr), seen + {b.usr})
            && seen + {b.usr} <= inner.seen <= universe && |universe - inner.seen| < |universe - seen|
            && rest == Expand(h, universe, bases[1..], inner.seen) && inner.seen <= rest.seen
            && Expand(h, universe, bases, seen) == Expansion(rest.seen, inner.order + [b] + rest.order)
  {
    var b := bases[0];
    assert Within(h, universe, Deps(h, b.usr));
    assert universe - (seen + {b.usr}) < universe - seen;
    ShrinkingSet(universe - (seen + {b.usr}), universe - seen);
    inner := Expand(h, universe, Deps(h, b.usr), seen + {b.usr});
    assert universe - inner.seen < universe - seen;
    ShrinkingSet(universe - inner.seen, universe - seen);
    rest := Expand(h, universe, bases[1..], inner.seen);
  }

  lemma CombineOrder(h: Hierarchy, b: BaseClass, seen: set<string>, inner: Expansion, rest: Expansion)
    requires Acyclic(h)
    requires Contents(h, Deps(h, b.usr), seen + {b.usr}, inner)
    requires PartsFirst(h, seen + {b.usr}, inner.order) && PartsFirst(h, inner.seen, rest.order)
    ensures PartsFirst(h, seen, inner.order + [b] + rest.order)
  {
    var order := inner.order + [b] + rest.order;
    forall j | 0 <= j < |order| ensures Listed(Deps(h, order[j].usr), seen + Usrs(order[..j])) {
      if j < |inner.order| {
        assert order[j] == inner.order[j] && order[..j] == inner.order[..j];
        InnerNotBuiltFrom(h, b, inner, seen, inner.order[j]);
      } else if j == |inner.order| {
        assert order[j] == b && order[..j] == inner.order;
        forall d | d in Deps(h, b.usr) ensures d.usr != b.usr { DepBuiltFrom(h, b.usr, d); }
      } else {
        var k := j - |inner.order| - 1;
        assert order[j] == rest.order[k] && order[..j] == inner.order + [b] + rest.order[..k];
        UsrsAppend(inner.order, [b]);
        UsrsAppend(inner.order + [b], rest.order[..k]);
        assert Usrs([b]) == {b.usr} by { assert b in [b]; }
        assert inner.seen <= seen + Usrs(inner.order) + {b.usr};
      }
    }
  }

  lemma InnerNotBuiltFrom(h: Hierarchy, b: BaseClass, inner: Expansion, seen: set<string>, e: BaseClass)
    requires Acyclic(h) && Contents(h, Deps(h, b.usr), seen + {b.usr}, inner) && e in inner.order
    ensures forall d | d in Deps(h, e.usr) :: d.usr != b.usr
  {
    forall d | d in Deps(h, e.usr) ensures d.usr != b.usr {
      assert Wanted(h, Deps(h, b.usr), e.usr);
      WantedByDep(h, b, [b], e.usr);
      DepBuiltFrom(h, e.usr, d);
      ReachesTransitive(Edges(h), b.usr, e.usr, d.usr);
      assert BuiltFrom(h, b.usr, d.usr);
    }
  }

  /** On an acyclic hierarchy everything a class is built from precedes it. */
  lemma {:induction false} ExpandOrder(h: Hierarchy, universe: set<string>, bases: seq<BaseClass>, seen: set<string>)
    requires Within(h, universe, bases) && seen <= universe && Acyclic(h)
    ensures PartsFirst(h, seen, Expand(h, universe, bases, seen).order)
    decreases |universe - seen|, |bases|
  {
    if bases == [] {
    } else if bases[0].usr in seen {
      ExpandOrder(h, universe, bases[1..], seen);
    } else {
      var inner, rest := ExpandStep(h, universe, bases, seen);
      ExpandContents(h, universe, Deps(h, bases[0].usr), seen + {bases[0].usr});
      ExpandOrder(h, universe, Deps(h, bases[0].usr), seen + {bases[0].usr});
      ExpandOrder(h, universe, bases[1..], inner.seen);
      CombineOrder(h, bases[0], seen, inner, rest);
    }
  }

  // ----- among unrelated mixins the listed order stays -----

  lemma {:induction false} ExpandAppend(h: Hierarchy, universe: set<string>, a: seq<BaseClass>, b: seq<BaseClass>,
                                        seen: set<string>)
    requires Within(h, universe, a) && Within(h, universe, b) && Within(h, universe, a + b) && seen <= universe
    ensures Expand(h, universe, a + b, seen).order
         == Expand(h, universe, a, seen).order + Expand(h, universe, b, Expand(h, universe, a, seen).seen).order
    decreases |universe - seen|, |a|
  {
    if a == [] {
      assert a + b == b;
    } else {
      assert (a + b)[0] == a[0] && (a + b)[1..] == a[1..] + b;
      if a[0].usr in seen {
        ExpandAppend(h, universe, a[1..], b, seen);
      } else {
        var inner, rest := ExpandStep(h, universe, a, seen);
        ExpandAppend(h, universe, a[1..], b, inner.seen);
        AppendStep(h, universe, a, b, seen, inner, rest);
      }
    }
  }

  lemma AppendStep(h: Hierarchy, universe: set<string>, a: seq<BaseClass>, b: seq<BaseClass>, seen: set<string>,
                   inner: Expansion, rest: Expansion)
    requires Within(h, universe, a + b) && Within(h, universe, b) && seen <= universe
    requires a != [] && a[0].usr !in seen && inner.seen <= universe && rest.seen <= universe
    requires Within(h, universe, Deps(h, a[0].usr)) && seen + {a[0].usr} <= universe
    requires inner == Expand(h, universe, Deps(h, a[0].usr), seen + {a[0].usr})
    requires Within(h, universe, a[1..] + b)
    requires Expand(h, universe, a[1..] + b, inner.seen).order
          == rest.order + Expand(h, universe, b, rest.seen).order
    ensures Expand(h, universe, a + b, seen).order
         == inner.order + [a[0]] + rest.order + Expand(h, universe, b, rest.seen).order
  {
    assert (a + b)[0] == a[0] && (a + b)[1..] == a[1..] + b;
    var i, more := ExpandStep(h, universe, a + b, seen);
    var last := Expand(h, universe, b, rest.seen).order;
    assert inner.order + [a[0]] + (rest.order + last) == inner.order + [a[0]] + rest.order + last;
  }

  lemma PrefixAndRest(h: Hierarchy, bases: seq<BaseClass>, j: nat) returns (front: seq<BaseClass>, back: seq<BaseClass>)
    requires j < |bases|
    ensures ApplicationOrder(h, bases) == front + back
    ensures Listed(bases[..j], Usrs(front)) && AllWanted(h, bases[..j], front)
    ensures bases[j].usr in Usrs(front) + Usrs(back)
  {
    var universe, first, last := Universe(h, bases), bases[..j], bases[j..];
    assert bases == first + last;
    ExpandAppend(h, universe, first, last, {});
    var x := Expand(h, universe, first, {});
    var y := Expand(h, universe, last, x.seen);
    ExpandContents(h, universe, first, {});
    ExpandContents(h, universe, last, x.seen);
    front, back := x.order, y.order;
    assert x.seen - {} == x.seen;
    assert bases[j] == last[0] && last[0] in last;
  }

  /** A listed mixin comes after the ones listed before it, unless one of those needs it. */
  lemma ListedOrderStays(h: Hierarchy, bases: seq<BaseClass>, i: nat, j: nat)
    requires i < j < |bases| && !Wanted(h, bases[..j], bases[j].usr)
    ensures exists p, q | 0 <= p < q < |ApplicationOrder(h, bases)| ::
              ApplicationOrder(h, bases)[p].usr == bases[i].usr && ApplicationOrder(h, bases)[q].usr == bases[j].usr
  {
    var front, back := PrefixAndRest(h, bases, j);
    assert bases[..j][i] in bases[..j];
    var p := PlaceOf(front, bases[i].usr);
    assert bases[j].usr !in Usrs(front);
    var q := PlaceOf(back, bases[j].usr);
    assert (front + back)[p] == front[p] && (front + back)[|front| + q] == back[q];
  }

  lemma PlaceOf(order: seq<BaseClass>, usr: string) returns (p: nat)
    requires usr in Usrs(order)
    ensures p < |order| && order[p].usr == usr
  {
    var b :| b in order && b.usr == usr;
    p :| p < |order| && order[p] == b;
  }

  /** The application order of a class's mixins: each class its mixins are or are built
      from, once, and only after the classes it is built from itself. */
  lemma ApplicationOrderIsValid(h: Hierarchy, bases: seq<BaseClass>)
    requires Acyclic(h)
    ensures var order := ApplicationOrder(h, bases);
            AllDistinct(order) && Listed(bases, Usrs(order)) && AllWanted(h, bases, order) && PartsFirst(h, {}, order)
  {
    ExpandContents(h, Universe(h, bases), bases, {});
    ExpandOrder(h, Universe(h, bases), bases, {});
    assert Expand(h, Universe(h, bases), bases, {}).seen - {} == Expand(h, Universe(h, bases), bases, {}).seen;
  }

  // ----- the pass -----

  /** The last listed class that declares `name`. */
  function LastDeclaring(h: Hierarchy, order: seq<BaseClass>, name: string): Option<BaseClass> {
    if order == [] then None
    else if Declares(h, order[|order| - 1].usr, name) then Some(order[|order| - 1])
    else LastDeclaring(h, order[..|order| - 1], name)
  }

  /** The first class on the `extends` chain that declares `name`.  A chain that came
      back to a class it had passed would never end; here it ends there. */
  function ChainDeclaring(h: Hierarchy, current: Option<BaseClass>, name: string,
                          passed: set<string>): Option<BaseClass>
    decreases |h.Keys - passed|
  {
    if current.None? || current.value.usr !in h || current.value.usr in passed then None
    else if Declares(h, current.value.usr, name) then current
    else
      var u := current.value.usr;
      assert h.Keys - (passed + {u}) < h.Keys - passed;
      ShrinkingSet(h.Keys - (passed + {u}), h.Keys - passed);
      ChainDeclaring(h, h[u].baseClass, name, passed + {u})
  }

  function SuperTarget(h: Hierarchy, usr: string, name: string): Option<BaseClass> {
    if usr !in h then None
    else
      var mixin := LastDeclaring(h, ApplicationOrder(h, h[usr].mixins), name);
      if mixin.Some? then mixin else ChainDeclaring(h, h[usr].baseClass, name, {})
  }

  function ResolveOne(h: Hierarchy, usr: string, e: Expr): Expr {
    if e.Call? && e.baseQualifier.Some? then
      var winner := SuperTarget(h, usr, e.calleeName);
      if winner.Some? && winner.value.usr == e.baseQualifier.value.usr then e
      else UnsupportedTyped("qualified base call " + e.baseQualifier.value.name + "::" + e.calleeName
                            + " does not resolve through Dart's `super` in this record's mixin linearization",
                            e.ty, e.origin)
    else e
  }

  function ResolveHooks(h: Hierarchy, usr: string): Hooks {
    Hooks(SameType, SameSite, e => ResolveOne(h, usr, e))
  }

  function ResolveRecord(h: Hierarchy, r: Record): Record {
    var k := ResolveHooks(h, r.usr);
    r.(constructors := seq(|r.constructors|, i requires 0 <= i < |r.constructors| =>
                             r.constructors[i].(body := VisitStmts(k, r.constructors[i].body))),
       methods := seq(|r.methods|, i requires 0 <= i < |r.methods| =>
                        if r.methods[i].body.Some?
                        then r.methods[i].(body := Some(VisitStmts(k, r.methods[i].body.value))) else r.methods[i]),
       destructor := if r.destructor.Some? then Some(VisitStmts(k, r.destructor.value)) else None)
  }

  // ----- what Dart does -----

  /** A method Dart's `super` can find: an instance method with a body.  A pure virtual one is
      printed as an abstract member, and a static one is no member of the instance. */
  predicate Provides(h: Hierarchy, usr: string, name: string) {
    usr in h && exists m | m in h[usr].methods :: m.name == name && m.body.Some? && !m.isStatic
  }

  /** A Dart class as the language builds it: the classes and mixins its instances'
      `super` goes through, each applied on top of the one below. */
  datatype Applied = ObjectClass | Apply(provider: BaseClass, below: Applied)

  /** `with M1, ..., Mn` applies the mixins one after the other. */
  function ApplyAll(order: seq<BaseClass>, below: Applied): Applied
    decreases |order|
  {
    if order == [] then below else ApplyAll(order[1..], Apply(order[0], below))
  }

  function MixinsOf(h: Hierarchy, usr: string): seq<BaseClass> {
    if usr in h then ApplicationOrder(h, h[usr].mixins) else []
  }

  /** What a class's own mixins are applied to: its superclass and everything below that. */
  function Superclass(h: Hierarchy, usr: string, passed: set<string>): Applied
    decreases |h.Keys - passed|, 0
  {
    if usr !in h || usr in passed || h[usr].baseClass.None? then ObjectClass
    else
      assert h.Keys - (passed + {usr}) < h.Keys - passed;
      ShrinkingSet(h.Keys - (passed + {usr}), h.Keys - passed);
      var b := h[usr].baseClass.value;
      Apply(b, SuperOf(h, b.usr, passed + {usr}))
  }

  /** What a class's `super` starts from: its superclass with its own mixins on top. */
  function SuperOf(h: Hierarchy, usr: string, passed: set<string>): Applied
    decreases |h.Keys - passed|, 1
  {
    ApplyAll(MixinsOf(h, usr), Superclass(h, usr, passed))
  }

  /** Member lookup walks down from the topmost class. */
  function LookupMember(h: Hierarchy, c: Applied, name: string): Option<BaseClass> {
    match c
    case ObjectClass => None
    case Apply(p, below) => if Provides(h, p.usr, name) then Some(p) else LookupMember(h, below, name)
  }

  /** Two bases or more become mixins, one is extended: never both. */
  ghost predicate OneKindOfBase(h: Hierarchy) {
    forall u | u in h :: h[u].baseClass.Some? ==> h[u].mixins == []
  }

  // ----- both lookups as searches of a list, nearest class first -----

  function Line(c: Applied): seq<BaseClass> {
    match c
    case ObjectClass => []
    case Apply(p, below) => [p] + Line(below)
  }

  function Nearest(order: seq<BaseClass>): (line: seq<BaseClass>)
    ensures |line| == |order| && forall i | 0 <= i < |order| :: line[i] == order[|order| - 1 - i]
  {
    if order == [] then [] else [order[|order| - 1]] + Nearest(order[..|order| - 1])
  }

  /** The classes on the `extends` chain, up to the first the module does not declare. */
  function Chain(h: Hierarchy, current: Option<BaseClass>, passed: set<string>): seq<BaseClass>
    decreases |h.Keys - passed|
  {
    if current.None? || current.value.usr in passed then []
    else if current.value.usr !in h then [current.value]
    else
      var u := current.value.usr;
      assert h.Keys - (passed + {u}) < h.Keys - passed;
      ShrinkingSet(h.Keys - (passed + {u}), h.Keys - passed);
      [current.value] + Chain(h, h[u].baseClass, passed + {u})
  }

  /** What the pass looks through. */
  function PassLine(h: Hierarchy, usr: string): seq<BaseClass>
    requires usr in h
  {
    Nearest(MixinsOf(h, usr)) + Chain(h, h[usr].baseClass, {})
  }

  function FirstDeclaring(h: Hierarchy, line: seq<BaseClass>, name: string): Option<BaseClass> {
    if line == [] then None
    else if Declares(h, line[0].usr, name) then Some(line[0])
    else FirstDeclaring(h, line[1..], name)
  }

  function FirstProviding(h: Hierarchy, line: seq<BaseClass>, name: string): Option<BaseClass> {
    if line == [] then None
    else if Provides(h, line[0].usr, name) then Some(line[0])
    else FirstProviding(h, line[1..], name)
  }

  lemma {:induction false} DeclaringAppend(h: Hierarchy, a: seq<BaseClass>, b: seq<BaseClass>, name: string)
    ensures FirstDeclaring(h, a + b, name)
         == if FirstDeclaring(h, a, name).Some? then FirstDeclaring(h, a, name) else FirstDeclaring(h, b, name)
    decreases |a|
  {
    if a == [] {
      assert a + b == b;
    } else {
      assert (a + b)[1..] == a[1..] + b;
      DeclaringAppend(h, a[1..], b, name);
    }
  }

  lemma {:induction false} ProvidingAppend(h: Hierarchy, a: seq<BaseClass>, b: seq<BaseClass>, name: string)
    ensures FirstProviding(h, a + b, name)
         == if FirstProviding(h, a, name).Some? then FirstProviding(h, a, name) else FirstProviding(h, b, name)
    decreases |a|
  {
    if a == [] {
      assert a + b == b;
    } else {
      assert (a + b)[1..] == a[1..] + b;
      ProvidingAppend(h, a[1..], b, name);
    }
  }

  /** A class that provides a member declares it, so the first provider is at or after the first
      declaring class: they are the same class exactly when that class provides. */
  lemma {:induction false} DeclaringVersusProviding(h: Hierarchy, line: seq<BaseClass>, name: string)
    ensures var d, p := FirstDeclaring(h, line, name), FirstProviding(h, line, name);
            && (d.Some? ==> Declares(h, d.value.usr, name))
            && (p.Some? ==> Provides(h, p.value.usr, name) && d.Some?)
            && (d.Some? && Provides(h, d.value.usr, name) ==> p == d)
    decreases |line|
  {
    if line != [] { DeclaringVersusProviding(h, line[1..], name); }
  }

  lemma {:induction false} LastIsNearest(h: Hierarchy, order: seq<BaseClass>, name: string)
    ensures LastDeclaring(h, order, name) == FirstDeclaring(h, Nearest(order), name)
    decreases |order|
  {
    if order != [] {
      LastIsNearest(h, order[..|order| - 1], name);
      assert Nearest(order)[1..] == Nearest(order[..|order| - 1]);
    }
  }

  lemma {:induction false} ChainIsLine(h: Hierarchy, current: Option<BaseClass>, name: string, passed: set<string>)
    ensures ChainDeclaring(h, current, name, passed) == FirstDeclaring(h, Chain(h, current, passed), name)
    decreases |h.Keys - passed|
  {
    if current.Some? && current.value.usr in h && current.value.usr !in passed {
      var u := current.value.usr;
      assert h.Keys - (passed + {u}) < h.Keys - passed;
      ShrinkingSet(h.Keys - (passed + {u}), h.Keys - passed);
      ChainIsLine(h, h[u].baseClass, name, passed + {u});
      assert Chain(h, current, passed)[1..] == Chain(h, h[u].baseClass, passed + {u});
    }
  }

  lemma TargetIsFirst(h: Hierarchy, usr: string, name: string)
    requires usr in h
    ensures SuperTarget(h, usr, name) == FirstDeclaring(h, PassLine(h, usr), name)
  {
    LastIsNearest(h, MixinsOf(h, usr), name);
    ChainIsLine(h, h[usr].baseClass, name, {});
    DeclaringAppend(h, Nearest(MixinsOf(h, usr)), Chain(h, h[usr].baseClass, {}), name);
  }

  lemma {:induction false} LookupIsFirst(h: Hierarchy, c: Applied, name: string)
    ensures LookupMember(h, c, name) == FirstProviding(h, Line(c), name)
  {
    if c.Apply? {
      LookupIsFirst(h, c.below, name);
      assert Line(c)[1..] == Line(c.below);
    }
  }

  lemma {:induction false} LineOfApplied(order: seq<BaseClass>, below: Applied)
    ensures Line(ApplyAll(order, below)) == Nearest(order) + Line(below)
    decreases |order|
  {
    if order != [] {
      LineOfApplied(order[1..], Apply(order[0], below));
      assert Nearest(order) == Nearest(order[1..]) + [order[0]];
    } else {
      assert Nearest(order) + Line(below) == Line(below);
    }
  }

  // ----- a class: its line is the pass's, and then the mixins at the end of its chain -----

  /** The class at the end of the `extends` chain. */
  function Root(h: Hierarchy, usr: string, passed: set<string>): string
    decreases |h.Keys - passed|
  {
    if usr !in h || usr in passed || h[usr].baseClass.None? then usr
    else
      assert h.Keys - (passed + {usr}) < h.Keys - passed;
      ShrinkingSet(h.Keys - (passed + {usr}), h.Keys - passed);
      Root(h, h[usr].baseClass.value.usr, passed + {usr})
  }

  /** Mixins a class gets through its `extends` chain, where the pass does not look. */
  function InheritedMixins(h: Hierarchy, usr: string): seq<BaseClass> {
    if usr in h && h[usr].baseClass.Some? then MixinsOf(h, Root(h, usr, {})) else []
  }

  lemma BaseBuiltFrom(h: Hierarchy, usr: string)
    requires usr in h && h[usr].baseClass.Some?
    ensures BuiltFrom(h, usr, h[usr].baseClass.value.usr)
  {
    assert h[usr].Bases()[0] == h[usr].baseClass.value;
    DepBuiltFrom(h, usr, h[usr].baseClass.value);
  }

  /** On an acyclic hierarchy the chain never meets a class it has passed. */
  lemma ChainAscends(h: Hierarchy, usr: string, passed: set<string>)
    requires Acyclic(h) && usr in h && usr !in passed && h[usr].baseClass.Some?
    requires forall u | u in passed :: BuiltFrom(h, u, usr)
    ensures var b := h[usr].baseClass.value.usr;
            b !in passed + {usr} && forall u | u in passed + {usr} :: BuiltFrom(h, u, b)
    ensures |h.Keys - (passed + {usr})| < |h.Keys - passed|
  {
    var b := h[usr].baseClass.value.usr;
    BaseBuiltFrom(h, usr);
    forall u | u in passed + {usr} ensures BuiltFrom(h, u, b) {
      if u != usr { ReachesTransitive(Edges(h), u, usr, b); }
    }
    assert !BuiltFrom(h, b, b);
    assert h.Keys - (passed + {usr}) < h.Keys - passed;
    ShrinkingSet(h.Keys - (passed + {usr}), h.Keys - passed);
  }

  lemma NoMixinsBeside(h: Hierarchy, usr: string)
    requires OneKindOfBase(h) && usr in h && h[usr].baseClass.Some?
    ensures MixinsOf(h, usr) == []
  {
    assert h[usr].mixins == [];
  }

  lemma UpOne(h: Hierarchy, usr: string, passed: set<string>)
    requires usr in h && usr !in passed && h[usr].baseClass.Some?
    ensures var b, next := h[usr].baseClass.value, passed + {usr};
            && Superclass(h, usr, passed) == Apply(b, SuperOf(h, b.usr, next))
            && Root(h, usr, passed) == Root(h, b.usr, next)
  {
  }

  lemma ChainStep(h: Hierarchy, b: BaseClass, passed: set<string>)
    requires b.usr !in passed
    ensures Chain(h, Some(b), passed)
         == [b] + if b.usr in h then Chain(h, h[b.usr].baseClass, passed + {b.usr}) else []
  {
  }

  lemma ChainEnd(h: Hierarchy, usr: string, passed: set<string>)
    requires usr !in h || h[usr].baseClass.None?
    ensures Superclass(h, usr, passed) == ObjectClass && Root(h, usr, passed) == usr
    ensures usr in h ==> Chain(h, h[usr].baseClass, passed) == []
  {
  }

  /** One class of the chain, put in front of what is known of the rest. */
  lemma LineStep(b: BaseClass, below: Applied, rest: seq<BaseClass>, root: seq<BaseClass>)
    requires Line(below) == rest + root
    ensures Line(Apply(b, below)) == [b] + rest + root
  {
    assert [b] + (rest + root) == [b] + rest + root;
  }

  lemma LineOfLast(h: Hierarchy, b: BaseClass, passed: set<string>)
    requires b.usr !in passed && (b.usr !in h || h[b.usr].baseClass.None?)
    ensures Line(SuperOf(h, b.usr, passed)) == [] + Nearest(MixinsOf(h, b.usr))
    ensures Chain(h, Some(b), passed) == [b] + [] && Root(h, b.usr, passed) == b.usr
  {
    ChainEnd(h, b.usr, passed);
    ChainStep(h, b, passed);
    if b.usr in h { ChainEnd(h, b.usr, passed + {b.usr}); }
    LineOfApplied(MixinsOf(h, b.usr), ObjectClass);
  }

  lemma LineOfMiddle(h: Hierarchy, b: BaseClass, passed: set<string>)
    requires OneKindOfBase(h) && b.usr in h && b.usr !in passed && h[b.usr].baseClass.Some?
    ensures SuperOf(h, b.usr, passed) == Superclass(h, b.usr, passed)
    ensures Chain(h, Some(b), passed) == [b] + Chain(h, h[b.usr].baseClass, passed + {b.usr})
  {
    NoMixinsBeside(h, b.usr);
    ChainStep(h, b, passed);
  }

  lemma {:induction false} LineOfSuperclass(h: Hierarchy, usr: string, passed: set<string>)
    requires OneKindOfBase(h) && Acyclic(h)
    requires usr in h && usr !in passed && h[usr].baseClass.Some? && (forall u | u in passed :: BuiltFrom(h, u, usr))
    ensures Line(Superclass(h, usr, passed))
         == Chain(h, h[usr].baseClass, passed + {usr}) + Nearest(MixinsOf(h, Root(h, usr, passed)))
    decreases |h.Keys - passed|
  {
    var b, next := h[usr].baseClass.value, passed + {usr};
    ChainAscends(h, usr, passed);
    UpOne(h, usr, passed);
    var root := Nearest(MixinsOf(h, Root(h, usr, passed)));
    if b.usr in h && h[b.usr].baseClass.Some? {
      LineOfMiddle(h, b, next);
      LineOfSuperclass(h, b.usr, next);
      LineStep(b, SuperOf(h, b.usr, next), Chain(h, h[b.usr].baseClass, next + {b.usr}), root);
    } else {
      LineOfLast(h, b, next);
      LineStep(b, SuperOf(h, b.usr, next), [], root);
    }
  }

  /** Nor the class it started from. */
  lemma {:induction false} ChainExtra(h: Hierarchy, current: Option<BaseClass>, passed: set<string>, usr: string)
    requires Acyclic(h) && (current.Some? ==> BuiltFrom(h, usr, current.value.usr))
    ensures Chain(h, current, passed) == Chain(h, current, passed + {usr})
    decreases |h.Keys - passed|
  {
    if current.Some? {
      var u := current.value.usr;
      assert u != usr;
      if u in h && u !in passed {
        var next := h[u].baseClass;
        if next.Some? {
          BaseBuiltFrom(h, u);
          ReachesTransitive(Edges(h), usr, u, next.value.usr);
        }
        assert h.Keys - (passed + {u}) < h.Keys - passed;
        ShrinkingSet(h.Keys - (passed + {u}), h.Keys - passed);
        ChainExtra(h, next, passed + {u}, usr);
        assert passed + {u} + {usr} == passed + {usr} + {u};
      }
    }
  }

  lemma LineOfClass(h: Hierarchy, usr: string)
    requires OneKindOfBase(h) && Acyclic(h) && usr in h
    ensures Line(SuperOf(h, usr, {})) == PassLine(h, usr) + Nearest(InheritedMixins(h, usr))
  {
    LineOfApplied(MixinsOf(h, usr), Superclass(h, usr, {}));
    if h[usr].baseClass.Some? {
      assert MixinsOf(h, usr) == [] by { assert h[usr].mixins == []; }
      BaseBuiltFrom(h, usr);
      LineOfSuperclass(h, usr, {});
      ChainExtra(h, h[usr].baseClass, {}, usr);
    }
  }

  /** In a class's own code the pass takes the first class of its line that declares the member,
      Dart's `super` the first that provides it, in that line and then among the mixins further up
      the `extends` chain.  The two agree exactly when the first class declaring the member provides
      it or, where none declares it, none of those mixins does. */
  lemma SuperTargetVersusDart(h: Hierarchy, usr: string, name: string)
    requires OneKindOfBase(h) && Acyclic(h) && usr in h
    ensures var found, dart := SuperTarget(h, usr, name), LookupMember(h, SuperOf(h, usr, {}), name);
            var line, further := PassLine(h, usr), Nearest(InheritedMixins(h, usr));
            && found == FirstDeclaring(h, line, name) && dart == FirstProviding(h, line + further, name)
            && (Name(dart) == Name(found)
                <==> if found.Some? then Provides(h, found.value.usr, name) else FirstProviding(h, further, name).None?)
  {
    LineOfClass(h, usr);
    LookupIsFirst(h, SuperOf(h, usr, {}), name);
    TargetIsFirst(h, usr, name);
    var line, inherited := PassLine(h, usr), Nearest(InheritedMixins(h, usr));
    ProvidingAppend(h, line, inherited, name);
    DeclaringVersusProviding(h, line, name);
    DeclaringVersusProviding(h, inherited, name);
  }

  /** The class a lookup answers with; the pass compares classes by usr only. */
  function Name(c: Option<BaseClass>): Option<string> {
    if c.Some? then Some(c.value.usr) else None
  }

  // ----- a mixin: its line is what was applied before it -----

  /** Where a record's code runs: in the class itself, or as the mixin at position `p` of the
      mixins applied to class `owner`. */
  datatype Place = InClass(usr: string) | InMixin(owner: string, p: nat)
  {
    ghost predicate In(h: Hierarchy) {
      match this
      case InClass(u) => u in h
      case InMixin(c, p) =>
        c in h && p < |MixinsOf(h, c)| && MixinsOf(h, c)[p].usr in h && h[MixinsOf(h, c)[p].usr].baseClass.None?
    }

    function Record(h: Hierarchy): string
      requires In(h)
    {
      match this
      case InClass(u) => u
      case InMixin(c, p) => MixinsOf(h, c)[p].usr
    }

    /** Where `super` starts there: below the class, or below the mixin's own application. */
    function Super(h: Hierarchy): Applied
      requires In(h)
    {
      match this
      case InClass(u) => SuperOf(h, u, {})
      case InMixin(c, p) => ApplyAll(MixinsOf(h, c)[..p], Superclass(h, c, {}))
    }

    function Reached(h: Hierarchy, name: string): Option<string>
      requires In(h)
    {
      Name(LookupMember(h, Super(h), name))
    }
  }

  /** Where a class stands in an order, `|order|` if nowhere. */
  function Position(order: seq<BaseClass>, usr: string): (q: nat)
    ensures q <= |order|
    ensures q < |order| ==> order[q].usr == usr
    ensures forall k | 0 <= k < q :: order[k].usr != usr
    decreases |order|
  {
    if order == [] || order[0].usr == usr then 0 else 1 + Position(order[1..], usr)
  }

  /** No mixin at a position from `from` up to `p` provides the member. */
  predicate NoneProvides(h: Hierarchy, order: seq<BaseClass>, from: nat, p: nat, name: string)
    requires p <= |order|
  {
    forall k | from <= k < p :: !Provides(h, order[k].usr, name)
  }

  /** Parts first, transitively: whatever a class is built from is applied before it. */
  lemma {:induction false} PartsPrecede(h: Hierarchy, order: seq<BaseClass>, p: nat, path: seq<string>, u: string)
    requires p < |order| && PartsFirst(h, {}, order) && PathFromTo(Edges(h), path, order[p].usr, u)
    ensures exists q | 0 <= q < p :: order[q].usr == u
    decreases p
  {
    assert Edge(Edges(h), path[0], path[1]);
    var i :| 0 <= i < |Edges(h)[path[0]]| && Edges(h)[path[0]][i] == path[1];
    var d := Deps(h, order[p].usr)[i];
    assert d in Deps(h, order[p].usr) && d.usr == path[1];
    assert d.usr in {} + Usrs(order[..p]);
    var e :| e in order[..p] && e.usr == d.usr;
    var q :| 0 <= q < p && order[q] == e;
    if |path| > 2 {
      var rest := path[1..];
      forall k | 0 <= k < |rest| - 1 ensures Edge(Edges(h), rest[k], rest[k + 1]) {
        assert Edge(Edges(h), path[k + 1], path[k + 2]);
      }
      PartsPrecede(h, order, q, rest, u);
    }
  }

  /** A mixin, at position `p` of the order a class listing `bases` applies its mixins in. */
  predicate AppliedAt(h: Hierarchy, bases: seq<BaseClass>, p: nat) {
    var order := ApplicationOrder(h, bases);
    p < |order| && order[p].usr in h && h[order[p].usr].baseClass.None?
  }

  lemma TargetIsPart(h: Hierarchy, m: BaseClass, name: string)
    requires m.usr in h && h[m.usr].baseClass.None?
    ensures var found := SuperTarget(h, m.usr, name);
            found.Some? ==> Declares(h, found.value.usr, name) && BuiltFrom(h, m.usr, found.value.usr)
  {
    var found := LastDeclaring(h, MixinsOf(h, m.usr), name);
    TargetListed(h, MixinsOf(h, m.usr), name);
    if found.Some? { PartOfMixins(h, m, found.value); }
  }

  lemma PartOfMixins(h: Hierarchy, m: BaseClass, part: BaseClass)
    requires m.usr in h && h[m.usr].baseClass.None? && part in MixinsOf(h, m.usr)
    ensures BuiltFrom(h, m.usr, part.usr)
  {
    var mixins := h[m.usr].mixins;
    OrderWanted(h, mixins, part);
    assert Deps(h, m.usr) == mixins;
    WantedByDep(h, m, [m], part.usr);
  }

  lemma OrderWanted(h: Hierarchy, bases: seq<BaseClass>, part: BaseClass)
    requires part in ApplicationOrder(h, bases)
    ensures Wanted(h, bases, part.usr)
  {
    ExpandContents(h, Universe(h, bases), bases, {});
  }

  lemma {:induction false} TargetListed(h: Hierarchy, order: seq<BaseClass>, name: string)
    ensures var found := LastDeclaring(h, order, name);
            found.Some? ==> found.value in order && Declares(h, found.value.usr, name)
    decreases |order|
  {
    if order != [] { TargetListed(h, order[..|order| - 1], name); }
  }

  /** So what the pass decides on is applied before the mixin, in whatever class applies it. */
  lemma TargetPrecedes(h: Hierarchy, bases: seq<BaseClass>, p: nat, name: string)
    requires Acyclic(h) && AppliedAt(h, bases, p)
    ensures var order := ApplicationOrder(h, bases);
            var found := SuperTarget(h, order[p].usr, name);
            found.Some? ==> Declares(h, found.value.usr, name) && Position(order, found.value.usr) < p
  {
    var order := ApplicationOrder(h, bases);
    TargetIsPart(h, order[p], name);
    var found := SuperTarget(h, order[p].usr, name);
    if found.Some? { PartIsBefore(h, bases, p, found.value.usr); }
  }

  lemma PartIsBefore(h: Hierarchy, bases: seq<BaseClass>, p: nat, u: string)
    requires Acyclic(h) && p < |ApplicationOrder(h, bases)| && BuiltFrom(h, ApplicationOrder(h, bases)[p].usr, u)
    ensures Position(ApplicationOrder(h, bases), u) < p
  {
    var order := ApplicationOrder(h, bases);
    var path :| PathFromTo(Edges(h), path, order[p].usr, u);
    ApplicationOrderIsValid(h, bases);
    PartsPrecede(h, order, p, path, u);
  }

  /** What `super` reaches from the mixin at position `p`: the last one applied before it that
      provides the member. */
  function SuperInside(h: Hierarchy, order: seq<BaseClass>, p: nat, name: string): Option<BaseClass>
    requires p <= |order|
  {
    FirstProviding(h, Nearest(order[..p]), name)
  }

  lemma {:induction false} LastProvider(h: Hierarchy, order: seq<BaseClass>, p: nat, name: string) returns (q: nat)
    requires p <= |order|
    ensures SuperInside(h, order, p, name).None? ==> NoneProvides(h, order, 0, p, name)
    ensures var f := SuperInside(h, order, p, name);
            f.Some? ==>
              && q < p && order[q] == f.value && Provides(h, order[q].usr, name)
              && NoneProvides(h, order, q + 1, p, name)
    decreases p
  {
    q := 0;
    if p > 0 {
      var line := Nearest(order[..p]);
      assert order[..p][..p - 1] == order[..p - 1];
      assert line[1..] == Nearest(order[..p - 1]) && line[0] == order[p - 1];
      q := LastProvider(h, order, p - 1, name);
      if Provides(h, order[p - 1].usr, name) { q := p - 1; }
    }
  }

  /** `usr` provides the member and nothing applied after it and before `p` does; for no class,
      nothing before `p` does. */
  predicate VisibleAt(h: Hierarchy, order: seq<BaseClass>, p: nat, name: string, usr: Option<string>)
    requires p <= |order|
  {
    match usr
    case None => NoneProvides(h, order, 0, p, name)
    case Some(u) => Provides(h, u, name) && NoneProvides(h, order, Position(order, u) + 1, p, name)
  }

  /** Inside a mixin, for every class that applies it and every position there: what the pass
      decides for the mixin alone is applied before it, and is what `super` reaches exactly when
      the target provides the member and no mixin applied between the two does (without a target,
      none before). */
  lemma MixinTargetVersusDart(h: Hierarchy, bases: seq<BaseClass>, p: nat, name: string)
    requires Acyclic(h) && AppliedAt(h, bases, p)
    ensures var order := ApplicationOrder(h, bases);
            var found := SuperTarget(h, order[p].usr, name);
            && (found.Some? ==> Position(order, found.value.usr) < p)
            && (Name(SuperInside(h, order, p, name)) == Name(found) <==> VisibleAt(h, order, p, name, Name(found)))
  {
    TargetPrecedes(h, bases, p, name);
    OrderDistinct(h, bases);
    var order := ApplicationOrder(h, bases);
    InsideVersus(h, order, p, name, Name(SuperTarget(h, order[p].usr, name)));
  }

  lemma OrderDistinct(h: Hierarchy, bases: seq<BaseClass>)
    requires Acyclic(h)
    ensures AllDistinct(ApplicationOrder(h, bases))
  {
    ApplicationOrderIsValid(h, bases);
  }

  /** The last provider before `p` is a class standing before `p` exactly when that class is
      visible from there. */
  lemma InsideVersus(h: Hierarchy, order: seq<BaseClass>, p: nat, name: string, usr: Option<string>)
    requires AllDistinct(order) && p <= |order| && (usr.Some? ==> Position(order, usr.value) < p)
    ensures Name(SuperInside(h, order, p, name)) == usr <==> VisibleAt(h, order, p, name, usr)
  {
    var q := LastProvider(h, order, p, name);
    var inside := SuperInside(h, order, p, name);
    if inside.Some? {
      PositionIs(order, q);
      if usr.Some? {
        var at := Position(order, usr.value);
        if at < q { assert !NoneProvides(h, order, at + 1, p, name); }
        if q < at { assert !Provides(h, order[at].usr, name); }
      }
    }
  }

  lemma PositionIs(order: seq<BaseClass>, q: nat)
    requires AllDistinct(order) && q < |order|
    ensures Position(order, order[q].usr) == q
  {
  }

  // ----- calls and bodies, wherever they run -----

  lemma ReachedInMixin(h: Hierarchy, owner: string, p: nat, name: string)
    requires OneKindOfBase(h) && InMixin(owner, p).In(h)
    ensures InMixin(owner, p).Reached(h, name) == Name(SuperInside(h, MixinsOf(h, owner), p, name))
  {
    var order := MixinsOf(h, owner);
    if h[owner].baseClass.Some? { NoMixinsBeside(h, owner); }
    LineOfApplied(order[..p], ObjectClass);
    LookupIsFirst(h, ApplyAll(order[..p], ObjectClass), name);
    assert Nearest(order[..p]) + [] == Nearest(order[..p]);
  }

  /** `base` provides the member and, inside a mixin, no mixin applied after `base` and before
      this one does. */
  predicate Visible(h: Hierarchy, place: Place, base: string, name: string)
    requires place.In(h)
  {
    match place
    case InClass(_) => Provides(h, base, name)
    case InMixin(c, p) => VisibleAt(h, MixinsOf(h, c), p, name, Some(base))
  }

  /** The pass's decision wherever the code runs, in the words of `Visible`. */
  lemma TargetReached(h: Hierarchy, place: Place, name: string)
    requires OneKindOfBase(h) && Acyclic(h) && place.In(h)
    ensures var found := SuperTarget(h, place.Record(h), name);
            found.Some? ==> (place.Reached(h, name) == Name(found) <==> Visible(h, place, found.value.usr, name))
  {
    match place
    case InClass(u) => SuperTargetVersusDart(h, u, name);
    case InMixin(c, p) => TargetReachedInMixin(h, c, p, name);
  }

  lemma TargetReachedInMixin(h: Hierarchy, owner: string, p: nat, name: string)
    requires OneKindOfBase(h) && Acyclic(h) && InMixin(owner, p).In(h)
    ensures var place := InMixin(owner, p);
            var found := SuperTarget(h, place.Record(h), name);
            place.Reached(h, name) == Name(found) <==> VisibleAt(h, MixinsOf(h, owner), p, name, Name(found))
  {
    ReachedInMixin(h, owner, p, name);
    MixinTargetVersusDart(h, h[owner].mixins, p, name);
  }

  /** A qualified call is kept exactly when the pass's target is the base it names.  A kept call
      runs the method it names exactly when that base is visible.  Any other becomes a bailout of
      the same type and origin; where the target is visible, or nothing at all is reached, a call
      is kept if and only if `super` reaches its base. */
  lemma KeptCallsAreSound(h: Hierarchy, place: Place, e: Expr)
    requires OneKindOfBase(h) && Acyclic(h) && place.In(h)
    requires e.Call? && e.baseQualifier.Some?
    ensures var r, base := ResolveOne(h, place.Record(h), e), e.baseQualifier.value.usr;
            var found, reached := SuperTarget(h, place.Record(h), e.calleeName), place.Reached(h, e.calleeName);
            && (r.Call? ==> r == e && (reached == Some(base) <==> Visible(h, place, base, e.calleeName)))
            && (!r.Call? ==> r.UnsupportedTyped? && r.ty == e.ty && r.origin == e.origin)
            && ((if found.Some? then Visible(h, place, found.value.usr, e.calleeName) else reached.None?)
                ==> (r.Call? <==> reached == Some(base)))
  {
    TargetReached(h, place, e.calleeName);
  }

  /** A call that names a base reaches it exactly when the base is visible there. */
  predicate CallReaches(h: Hierarchy, place: Place, e: Expr)
    requires place.In(h)
  {
    e.Call? && e.baseQualifier.Some? ==>
      var base := e.baseQualifier.value.usr;
      place.Reached(h, e.calleeName) == Some(base) <==> Visible(h, place, base, e.calleeName)
  }

  ghost function ReachCheck(h: Hierarchy, place: Place): Check {
    Check(e => place.In(h) ==> CallReaches(h, place, e), _ => true)
  }

  /** Whatever a record's body contains and wherever it runs, every call in it that still names a
      base afterwards reaches it exactly when the base is visible there. */
  lemma ResolvedBodiesReachTheirBases(h: Hierarchy, place: Place, body: seq<Stmt>)
    requires OneKindOfBase(h) && Acyclic(h) && place.In(h)
    ensures AllSs(ReachCheck(h, place), VisitStmts(ResolveHooks(h, place.Record(h)), body))
  {
    var k, c := ResolveHooks(h, place.Record(h)), ReachCheck(h, place);
    forall n | Inside(c, n) ensures AllE(c, k.onExpr(n)) {
      ResolvedNode(h, place, n);
      ResolvedGood(c, h, place.Record(h), n);
    }
    NodesEstablish(k, c);
    VisitedSs(k, c, body);
  }

  lemma ResolvedNode(h: Hierarchy, place: Place, n: Expr)
    requires OneKindOfBase(h) && Acyclic(h) && place.In(h)
    ensures CallReaches(h, place, ResolveOne(h, place.Record(h), n))
  {
    if n.Call? && n.baseQualifier.Some? { KeptCallsAreSound(h, place, n); }
  }

  lemma ResolvedGood(c: Check, h: Hierarchy, usr: string, n: Expr)
    requires (forall t :: c.ty(t)) && Inside(c, n) && c.node(ResolveOne(h, usr, n))
    ensures AllE(c, ResolveOne(h, usr, n))
  {
  }

  // ----- what the pass leaves in the records -----

  /** A qualified call is left exactly when the pass's target is the base it names, and is a bailout
      of its type and origin otherwise; every other node is left. */
  predicate Decided(h: Hierarchy, usr: string, e: Expr, d: Expr) {
    if e.Call? && e.baseQualifier.Some? && Name(SuperTarget(h, usr, e.calleeName)) != Some(e.baseQualifier.value.usr)
    then d == UnsupportedTyped("qualified base call " + e.baseQualifier.value.name + "::" + e.calleeName
                               + " does not resolve through Dart's `super` in this record's mixin linearization",
                               e.ty, e.origin)
    else d == e
  }

  ghost function Deciding(h: Hierarchy, usr: string): Rule {
    Rule((t, u) => t == u, (usr, s, z) => s == z, (e, d) => Decided(h, usr, e, d), true)
  }

  /** Wherever the record's code runs, what the body still calls by a base is what `Visible` says. */
  ghost predicate Sound(h: Hierarchy, usr: string, body: seq<Stmt>) {
    OneKindOfBase(h) && Acyclic(h) ==>
      forall place: Place | place.In(h) && place.Record(h) == usr :: AllSs(ReachCheck(h, place), body)
  }

  ghost predicate BodyResolved(h: Hierarchy, usr: string, before: seq<Stmt>, after: seq<Stmt>) {
    StmtsTo(Deciding(h, usr), before, after) && Sound(h, usr, after)
  }

  ghost predicate BodiesResolved(h: Hierarchy, usr: string, before: Option<seq<Stmt>>, after: Option<seq<Stmt>>) {
    after.Some? == before.Some? && (before.Some? ==> BodyResolved(h, usr, before.value, after.value))
  }

  /** Every constructor, method and destructor body is resolved; nothing else changes. */
  ghost predicate RecordResolved(h: Hierarchy, x: Record, y: Record) {
    && y == x.(constructors := y.constructors, methods := y.methods, destructor := y.destructor)
    && |y.constructors| == |x.constructors| && |y.methods| == |x.methods|
    && (forall i | 0 <= i < |x.constructors| ::
          y.constructors[i] == x.constructors[i].(body := y.constructors[i].body)
          && BodyResolved(h, x.usr, x.constructors[i].body, y.constructors[i].body))
    && (forall i | 0 <= i < |x.methods| ::
          y.methods[i] == x.methods[i].(body := y.methods[i].body)
          && BodiesResolved(h, x.usr, x.methods[i].body, y.methods[i].body))
    && BodiesResolved(h, x.usr, x.destructor, y.destructor)
  }

  lemma ResolvedIsSound(h: Hierarchy, usr: string, body: seq<Stmt>)
    ensures Sound(h, usr, VisitStmts(ResolveHooks(h, usr), body))
  {
    if OneKindOfBase(h) && Acyclic(h) {
      forall place: Place | place.In(h) && place.Record(h) == usr
        ensures AllSs(ReachCheck(h, place), VisitStmts(ResolveHooks(h, usr), body))
      {
        ResolvedBodiesReachTheirBases(h, place, body);
      }
    }
  }

  lemma DecidingFollows(h: Hierarchy, usr: string)
    ensures Follows(ResolveHooks(h, usr), Deciding(h, usr))
  {
    var k, r := ResolveHooks(h, usr), Deciding(h, usr);
    forall t ensures r.ty(t, k.onType(t)) { }
    forall u, s ensures r.site(u, s, Landed(k, u, s)) { SiteStays(k, u, s); }
    forall e ensures r.node(e, k.onExpr(e)) { DecidedOne(h, usr, e); }
  }

  lemma SiteStays(k: Hooks, usr: string, s: Site)
    requires k.onConstruct(usr, s) == s
    ensures Landed(k, usr, s) == s
  {
  }

  lemma ResolvedIsDecided(h: Hierarchy, usr: string, body: seq<Stmt>)
    ensures StmtsTo(Deciding(h, usr), body, VisitStmts(ResolveHooks(h, usr), body))
  {
    DecidingFollows(h, usr);
    VisitedStmts(ResolveHooks(h, usr), Deciding(h, usr), body);
  }

  lemma DecidedOne(h: Hierarchy, usr: string, e: Expr)
    ensures Decided(h, usr, e, ResolveOne(h, usr, e))
  {
  }

  lemma RecordIsResolved(h: Hierarchy, x: Record)
    ensures RecordResolved(h, x, ResolveRecord(h, x))
  {
    forall body ensures BodyResolved(h, x.usr, body, VisitStmts(ResolveHooks(h, x.usr), body)) {
      ResolvedIsDecided(h, x.usr, body);
      ResolvedIsSound(h, x.usr, body);
    }
  }

  method IndexRecords(records: seq<Record>) returns (h: Hierarchy)
    ensures h == ByUsr(records)
  {
    h := map[];
    for i := 0 to |records|
      invariant h == ByUsr(records[..i])
    {
      assert records[..i + 1][..i] == records[..i];
      h := h[records[i].usr := records[i]];
    }
    assert records[..|records|] == records;
  }

  method ResolveBodies(h: Hierarchy, x: Record) returns (y: Record)
    ensures RecordResolved(h, x, y)
  {
    RecordIsResolved(h, x);
    y := ResolveRecord(h, x);
  }

  method ResolveAll(h: Hierarchy, records: array<Record>)
    modifies records
    ensures forall i | 0 <= i < records.Length :: RecordResolved(h, old(records[i]), records[i])
  {
    for i := 0 to records.Length
      invariant forall k | 0 <= k < i :: RecordResolved(h, old(records[k]), records[k])
      invariant forall k | i <= k < records.Length :: records[k] == old(records[k])
    {
      records[i] := ResolveBodies(h, records[i]);
    }
  }

  /** The whole pass, over the record list in place, by the hierarchy as it was before. */
  method ResolveQualifiedBaseCalls(records: array<Record>) returns (ghost h: Hierarchy)
    modifies records
    ensures Describes(h, old(records[..]))
    ensures forall i | 0 <= i < records.Length :: RecordResolved(h, old(records[i]), records[i])
  {
    var byUsr := IndexRecords(records[..]);
    ByUsrDescribes(records[..]);
    ResolveAll(byUsr, records);
    h := byUsr;
  }

  // ----- inputs on which the two part -----

  /** An expansion that never meets `u` does not care whether `u` was seen before. */
  ghost predicate Ignores(h: Hierarchy, universe: set<string>, bases: seq<BaseClass>, seen: set<string>, u: string)
    requires Within(h, universe, bases) && seen + {u} <= universe
  {
    var x, y := Expand(h, universe, bases, seen), Expand(h, universe, bases, seen + {u});
    y.order == x.order && y.seen == x.seen + {u}
  }

  lemma {:induction false} ExpandIgnores(h: Hierarchy, universe: set<string>, bases: seq<BaseClass>, seen: set<string>,
                                         u: string)
    requires Within(h, universe, bases) && seen + {u} <= universe && !Wanted(h, bases, u)
    ensures Ignores(h, universe, bases, seen, u)
    decreases |universe - seen|, |bases|
  {
    if bases != [] {
      UnwantedParts(h, bases, u);
      if bases[0].usr in seen {
        ExpandIgnores(h, universe, bases[1..], seen, u);
      } else {
        var inner, rest := ExpandStep(h, universe, bases, seen);
        ExpandIgnores(h, universe, Deps(h, bases[0].usr), seen + {bases[0].usr}, u);
        ExpandIgnores(h, universe, bases[1..], inner.seen, u);
        IgnoresStep(h, universe, bases, seen, u, inner);
      }
    }
  }

  lemma IgnoresStep(h: Hierarchy, universe: set<string>, bases: seq<BaseClass>, seen: set<string>, u: string,
                    inner: Expansion)
    requires bases != [] && bases[0].usr !in seen && bases[0].usr != u && Within(h, universe, bases)
        && seen + {u} <= universe
    requires bases[0].usr in universe && Within(h, universe, Deps(h, bases[0].usr))
    requires inner == Expand(h, universe, Deps(h, bases[0].usr), seen + {bases[0].usr}) && inner.seen <= universe
    requires Ignores(h, universe, Deps(h, bases[0].usr), seen + {bases[0].usr}, u)
    requires Ignores(h, universe, bases[1..], inner.seen, u)
    ensures Ignores(h, universe, bases, seen, u)
  {
    var i, r := ExpandStep(h, universe, bases, seen);
    var i', r' := ExpandStep(h, universe, bases, seen + {u});
    assert seen + {bases[0].usr} + {u} == seen + {u} + {bases[0].usr};
  }

  lemma UnwantedParts(h: Hierarchy, bases: seq<BaseClass>, u: string)
    requires bases != [] && !Wanted(h, bases, u)
    ensures bases[0].usr != u && !Wanted(h, bases[1..], u) && !Wanted(h, Deps(h, bases[0].usr), u)
  {
    assert bases[0] in bases;
    forall b | b in bases[1..] ensures b.usr != u && !BuiltFrom(h, b.usr, u) { assert b in bases; }
    if Wanted(h, Deps(h, bases[0].usr), u) { WantedByDep(h, bases[0], bases, u); }
  }

  lemma {:induction false} ExpandAnyUniverse(h: Hierarchy, u1: set<string>, u2: set<string>, bases: seq<BaseClass>,
                                             seen: set<string>)
    requires Within(h, u1, bases) && Within(h, u2, bases) && seen <= u1 && seen <= u2
    ensures Expand(h, u1, bases, seen) == Expand(h, u2, bases, seen)
    decreases |u1 - seen|, |bases|
  {
    if bases != [] {
      if bases[0].usr in seen {
        ExpandAnyUniverse(h, u1, u2, bases[1..], seen);
      } else {
        var inner, rest := ExpandStep(h, u1, bases, seen);
        var inner', rest' := ExpandStep(h, u2, bases, seen);
        ExpandAnyUniverse(h, u1, u2, Deps(h, bases[0].usr), seen + {bases[0].usr});
        ExpandAnyUniverse(h, u1, u2, bases[1..], inner.seen);
      }
    }
  }

  /** Applied on its own (`class Impl with M`, as the synthesized implementation records are),
      nothing comes between a mixin and its target. */
  lemma MixinAppliedAlone(h: Hierarchy, m: BaseClass, name: string)
    requires Acyclic(h) && m.usr in h && h[m.usr].baseClass.None?
    ensures var order, found := ApplicationOrder(h, [m]), SuperTarget(h, m.usr, name);
            && |order| > 0 && order[|order| - 1] == m
            && (Name(SuperInside(h, order, |order| - 1, name)) == Name(found)
                <==> (found.Some? ==> Provides(h, found.value.usr, name)))
  {
    OrderAlone(h, m);
    var deps := h[m.usr].mixins;
    var order := ApplicationOrder(h, deps);
    assert (order + [m])[..|order|] == order;
    LastIsNearest(h, order, name);
    DeclaringVersusProviding(h, Nearest(order), name);
  }

  lemma OrderAlone(h: Hierarchy, m: BaseClass)
    requires Acyclic(h) && m.usr in h && h[m.usr].baseClass.None?
    ensures ApplicationOrder(h, [m]) == ApplicationOrder(h, h[m.usr].mixins) + [m]
  {
    var deps := h[m.usr].mixins;
    assert Deps(h, m.usr) == deps;
    var universe := Universe(h, [m]);
    var inner, rest := ExpandStep(h, universe, [m], {});
    assert rest == Expand(h, universe, [], inner.seen);
    assert {} + {m.usr} == {m.usr};
    assert !Wanted(h, deps, m.usr) by {
      assert !BuiltFrom(h, m.usr, m.usr);
      if Wanted(h, deps, m.usr) { WantedByDep(h, m, [m], m.usr); }
    }
    ExpandIgnores(h, universe, deps, {}, m.usr);
    ExpandAnyUniverse(h, universe, Universe(h, deps), deps, {});
  }

  /** A class `c` with two mixins, `a` and then `b`, built from nothing. */
  ghost predicate TwoMixins(h: Hierarchy, a: BaseClass, b: BaseClass, c: string) {
    && a.usr != b.usr && a.usr in h && b.usr in h && h[a.usr].Bases() == [] && h[b.usr].Bases() == []
    && c in h && h[c].mixins == [a, b] && h[c].baseClass == None
  }

  /** A pure virtual or static member misleads the pass: with `run` defined in `a` and only
      declared in `b`, it drops the call to `a`, which `super` reaches, and keeps the one to `b`. */
  lemma DeclaredButNotProvided(h: Hierarchy, a: BaseClass, b: BaseClass, c: string, e: Expr)
    requires TwoMixins(h, a, b, c) && e.Call? && e.baseQualifier.Some?
    requires (exists m | m in h[a.usr].methods :: m.name == e.calleeName && m.body.Some? && !m.isStatic)
    requires exists m | m in h[b.usr].methods :: m.name == e.calleeName
    requires forall m | m in h[b.usr].methods && m.name == e.calleeName :: m.body.None? || m.isStatic
    ensures InClass(c).Reached(h, e.calleeName) == Some(a.usr) && SuperTarget(h, c, e.calleeName) == Some(b)
    ensures e.baseQualifier.value == a ==> ResolveOne(h, c, e).UnsupportedTyped?
    ensures e.baseQualifier.value == b ==> ResolveOne(h, c, e) == e
  {
    LeavesInOrder(h, a, b);
    OnTop(a, b);
    var super := Apply(b, Apply(a, ObjectClass));
    assert Superclass(h, c, {}) == ObjectClass;
    assert MixinsOf(h, c) == [a, b];
    assert InClass(c).Super(h) == ApplyAll([a, b], ObjectClass);
    assert LookupMember(h, super, e.calleeName) == Some(a);
  }

  lemma OnTop(a: BaseClass, b: BaseClass)
    ensures ApplyAll([a, b], ObjectClass) == Apply(b, Apply(a, ObjectClass))
  {
    assert [a, b][1..] == [b] && [b][1..] == [];
    assert ApplyAll([b], Apply(a, ObjectClass)) == ApplyAll([], Apply(b, Apply(a, ObjectClass)));
  }

  lemma LeavesInOrder(h: Hierarchy, a: BaseClass, b: BaseClass)
    requires a.usr != b.usr && Deps(h, a.usr) == [] && Deps(h, b.usr) == []
    ensures ApplicationOrder(h, [a, b]) == [a, b]
  {
    var universe := Universe(h, [a, b]);
    var none: seq<BaseClass> := [];
    assert [a] + [b] == [a, b] && [b] + none == [b];
    assert {} + {a.usr} == {a.usr};
    LeafFirst(h, universe, a, [b], {});
    LeafFirst(h, universe, b, none, {a.usr});
  }

  /** Two mixins built from nothing, and a third built from both in that order. */
  ghost predicate Diamond(h: Hierarchy, a: BaseClass, b: BaseClass, m: BaseClass) {
    && a.usr != b.usr && a.usr != m.usr && b.usr != m.usr
    && Deps(h, a.usr) == [] && Deps(h, b.usr) == []
    && m.usr in h && Deps(h, m.usr) == [a, b] && h[m.usr].baseClass == None
  }

  /** Applied next to other mixins the decision may be wrong: in `class C with B, M`, where `M`
      is built from `A` and `B`, `M` keeps its call to `B`, but `super` inside it is `A`. */
  lemma MixinAppliedAmongOthers(h: Hierarchy, a: BaseClass, b: BaseClass, m: BaseClass, name: string)
    requires Diamond(h, a, b, m) && Provides(h, a.usr, name) && Provides(h, b.usr, name)
    ensures SuperTarget(h, m.usr, name) == Some(b)
    ensures var order := ApplicationOrder(h, [b, m]);
            |order| == 3 && order[2] == m && SuperInside(h, order, 2, name) == Some(a)
  {
    LeavesInOrder(h, a, b);
    DiamondOrder(h, a, b, m);
    assert h[m.usr].mixins == [a, b];
    assert [b, a, m][..2] == [b, a];
  }

  lemma DiamondOrder(h: Hierarchy, a: BaseClass, b: BaseClass, m: BaseClass)
    requires Diamond(h, a, b, m)
    ensures ApplicationOrder(h, [b, m]) == [b, a, m]
  {
    var universe := Universe(h, [b, m]);
    assert [b] + [m] == [b, m] && {} + {b.usr} == {b.usr};
    LeafFirst(h, universe, b, [m], {});
    MixinLast(h, universe, a, b, m);
  }

  lemma MixinLast(h: Hierarchy, universe: set<string>, a: BaseClass, b: BaseClass, m: BaseClass)
    requires Diamond(h, a, b, m) && Within(h, universe, [m]) && b.usr in universe
    ensures Expand(h, universe, [m], {b.usr}).order == [a, m]
  {
    var none: seq<BaseClass> := [];
    var inner, rest := ExpandStep(h, universe, [m], {b.usr});
    assert [m][1..] == none && [a] + [b] == [a, b];
    LeafFirst(h, universe, a, [b], {b.usr} + {m.usr});
    SeenFirst(h, universe, b, {b.usr} + {m.usr} + {a.usr});
  }

  lemma SeenFirst(h: Hierarchy, universe: set<string>, b: BaseClass, seen: set<string>)
    requires Within(h, universe, [b]) && b.usr in seen && seen <= universe
    ensures Expand(h, universe, [b], seen).order == []
  {
    assert [b][1..] == [];
  }

  lemma LeafFirst(h: Hierarchy, universe: set<string>, leaf: BaseClass, others: seq<BaseClass>, seen: set<string>)
    requires Within(h, universe, [leaf] + others) && seen <= universe && leaf.usr !in seen && Deps(h, leaf.usr) == []
    ensures leaf.usr in universe && Within(h, universe, others)
    ensures Expand(h, universe, [leaf] + others, seen).order
         == [leaf] + Expand(h, universe, others, seen + {leaf.usr}).order
  {
    var inner, rest := ExpandStep(h, universe, [leaf] + others, seen);
    assert ([leaf] + others)[1..] == others;
  }
}
