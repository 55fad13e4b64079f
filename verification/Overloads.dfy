/**
 Names for overloads.  Dart resolves a call by name alone, so the members of an
 overload group are given names of their own: first from what tells their
 signatures apart, then, where names still coincide, an ordinal in usr order.
 */
module Overloads {
  import opened Wrappers
  import opened Ir
  import opened Strings
  import opened Renames
  import opened Catalogs

  type Declaration = FunctionDeclaration

  /** Helpers taken as given: reading a C++ signature, and the pieces Dart names are made of. */
  datatype Naming = Naming(
    parameterList: string -> string, arity: string -> nat, resultType: string -> string, isConst: string -> bool,
    suffix: Type -> string, bridge: (string, nat) -> string, isDirect: (string, nat) -> bool,
        sameRecord: (Type, Type) -> bool)

  /** What the pass consults: every declaration, the lowered parameters by usr, the records. */
  datatype Facts = Facts(all: seq<Declaration>, functionParams: map<string, seq<Param>>,
                         methodParams: map<string, seq<Param>>, records: seq<Record>)

  datatype Decision =
    | OperatorBridge | SingleSignature | StaticVersusInstance | ConstVersusNot | OptionalParameters | ByType

  predicate NamesOperator(name: string) {
    |name| >= 8 && name[..8] == "operator"
  }

  function Named(all: seq<Declaration>, owner: Option<string>, name: string): seq<Declaration> {
    if all == [] then []
    else (if all[0].owningClassUsr == owner && all[0].name == name then [all[0]] else []) + Named(all[1..], owner, name)
  }

  function Callables(all: seq<Declaration>): seq<Declaration> {
    if all == [] then [] else (if all[0].isFreeOrMethod then [all[0]] else []) + Callables(all[1..])
  }

  function Group(all: seq<Declaration>, owner: Option<string>, name: string): seq<Declaration> {
    Named(Callables(all), owner, name)
  }

  predicate MixesStatic(group: seq<Declaration>) {
    (exists d | d in group :: d.isStatic) && (exists d | d in group :: !d.isStatic)
  }

  predicate ConstPair(n: Naming, group: seq<Declaration>) {
    |group| == 2
    && n.parameterList(group[0].signature) == n.parameterList(group[1].signature)
    && n.isConst(group[0].signature) != n.isConst(group[1].signature)
  }

  function Arities(n: Naming, group: seq<Declaration>): set<nat> {
    set d | d in group :: n.arity(d.signature)
  }

  function Results(n: Naming, group: seq<Declaration>): set<string> {
    set d | d in group :: n.resultType(d.signature)
  }

  /** The decision looks at every declaration of the name, callable or not. */
  function Decide(n: Naming, all: seq<Declaration>, owner: Option<string>, name: string): Decision {
    var group := Named(all, owner, name);
    if NamesOperator(name) && |name| > 8 then OperatorBridge
    else if |group| <= 1 then SingleSignature
    else if MixesStatic(group) then StaticVersusInstance
    else if ConstPair(n, group) then ConstVersusNot
    else if |Arities(n, group)| > 1 && |Arities(n, group)| == |group| && |Results(n, group)| == 1
        then OptionalParameters
    else ByType
  }

  function OverloadName(n: Naming, base: string, params: seq<Param>): string
    decreases |params|
  {
    if params == [] then base else OverloadName(n, base + n.suffix(params[0].ty), params[1..])
  }

  function MethodArity(f: Facts, d: Declaration): nat {
    if d.usr in f.methodParams then |f.methodParams[d.usr]| else 0
  }

  function OfArity(f: Facts, group: seq<Declaration>, arity: nat): seq<Declaration> {
    if group == [] then []
    else (if MethodArity(f, group[0]) == arity then [group[0]] else []) + OfArity(f, group[1..], arity)
  }

  function FindRecord(records: seq<Record>, usr: string): Option<Record> {
    if records == [] then None else if records[0].usr == usr then Some(records[0]) else FindRecord(records[1..], usr)
  }

  predicate TakesOwner(n: Naming, f: Facts, owner: Record, d: Declaration) {
    d.usr in f.methodParams && f.methodParams[d.usr] != []
    && n.sameRecord(f.methodParams[d.usr][0].ty, Type.Record(owner.usr, owner.name))
  }

  /** The overload that keeps the native operator: the first taking the owner's type, else the first. */
  function Native(n: Naming, f: Facts, owner: Option<Record>, bucket: seq<Declaration>): Declaration
    requires bucket != []
  {
    if owner.Some? && FirstTaking(n, f, owner.value, bucket).Some? then FirstTaking(n, f, owner.value, bucket).value
        else bucket[0]
  }

  function FirstTaking(n: Naming, f: Facts, owner: Record, bucket: seq<Declaration>): Option<Declaration> {
    if bucket == [] then None
    else if TakesOwner(n, f, owner, bucket[0]) then Some(bucket[0])
    else FirstTaking(n, f, owner, bucket[1..])
  }

  function OperatorName(n: Naming, f: Facts, group: seq<Declaration>, d: Declaration): Option<string> {
    if d.owningClassUsr.Some? then
      var arity := MethodArity(f, d);
      var bucket := OfArity(f, group, arity);
      if n.isDirect(d.name, arity) && (|bucket| <= 1
          || Native(n, f, FindRecord(f.records, d.owningClassUsr.value), bucket).usr == d.usr)
      then None
      else Some(n.bridge(d.name, arity) + OverloadName(n, "", if d.usr in f.methodParams then f.methodParams[d.usr]
                                                       else []))
    else if d.usr in f.functionParams then
      var params := f.functionParams[d.usr];
      Some(n.bridge(d.name, |params|) + OverloadName(n, "", params))
    else None
  }

  function TypedName(n: Naming, f: Facts, d: Declaration): Option<string> {
    var params :=
      if d.usr in f.functionParams then Some(f.functionParams[d.usr])
      else if d.usr in f.methodParams then Some(f.methodParams[d.usr])
      else None;
    if params.None? then None
    else Some(OverloadName(n, d.name, params.value) + if n.isConst(d.signature) then "Const" else "")
  }

  /** The name a member of a real group is given from its signature, if any. */
  function Computed(n: Naming, f: Facts, d: Declaration): Option<string> {
    var group := Group(f.all, d.owningClassUsr, d.name);
    if |group| <= 1 then None
    else
      var decision := Decide(n, f.all, d.owningClassUsr, d.name);
      if decision.StaticVersusInstance? then if d.isStatic then Some(d.name + "Static") else None
      else if NamesOperator(d.name) then OperatorName(n, f, group, d)
      else if decision.ByType? || decision.OptionalParameters? then TypedName(n, f, d)
      else None
  }

  function Effective(n: Naming, f: Facts, d: Declaration): string {
    match Computed(n, f, d)
    case Some(name) => name
    case None => d.name
  }

  function Before(us: set<string>, u: string): set<string> {
    set v | v in us && Less(v, u)
  }

  /** The members of a declaration's group that share its computed name. */
  function Peers(n: Naming, f: Facts, d: Declaration): set<string> {
    set e | e in Group(f.all, d.owningClassUsr, d.name) && Effective(n, f, e) == Effective(n, f, d) :: e.usr
  }

  function Rank(n: Naming, f: Facts, d: Declaration): nat {
    |Before(Peers(n, f, d), d.usr)|
  }

  function Final(n: Naming, f: Facts, d: Declaration): string {
    Effective(n, f, d) + Ordinal(Rank(n, f, d))
  }

  // ----- groups -----

  lemma NamedMembers(all: seq<Declaration>, owner: Option<string>, name: string)
    ensures forall d :: d in Named(all, owner, name) <==> d in all && d.owningClassUsr == owner && d.name == name
  {
  }

  lemma CallableMembers(all: seq<Declaration>)
    ensures forall d :: d in Callables(all) <==> d in all && d.isFreeOrMethod
  {
  }

  /** Who is in a group: the callables of that owner and name. */
  lemma GroupMembers(all: seq<Declaration>, owner: Option<string>, name: string)
    ensures forall d ::
      d in Group(all, owner, name) <==> d in all && d.isFreeOrMethod && d.owningClassUsr == owner && d.name == name
  {
    CallableMembers(all);
    NamedMembers(Callables(all), owner, name);
  }

  /** Within a group, the usr tells the members apart. */
  ghost predicate UsrsDistinct(all: seq<Declaration>) {
    forall d, e | d in all && e in all && d.isFreeOrMethod && e.isFreeOrMethod && d.usr == e.usr :: d == e
  }

  // ----- distinct names -----

  /** No name computed in the group is another one followed by digits. */
  ghost predicate NoDigitClash(n: Naming, f: Facts, owner: Option<string>, name: string) {
    forall d, e | d in Group(f.all, owner, name) && e in Group(f.all, owner, name) ::
      !ExtendsByDigits(Effective(n, f, d), Effective(n, f, e))
  }

  lemma RanksDiffer(us: set<string>, u: string, v: string)
    requires u in us && v in us && Less(u, v)
    ensures |Before(us, u)| < |Before(us, v)|
  {
    forall w | w in Before(us, u) ensures w in Before(us, v) { LessTransitive(w, u, v); }
    LessIrreflexive(u);
    assert u in Before(us, v) && u !in Before(us, u);
    Smaller(Before(us, u), Before(us, v), u);
  }

  lemma Smaller<T>(a: set<T>, b: set<T>, x: T)
    requires a <= b && x in b && x !in a
    ensures |a| < |b|
  {
    var rest := b - a;
    assert b == a + rest && a !! rest && x in rest;
  }

  /** The one way two members can still collide: a computed name is another one and then digits,
      and those digits run into an ordinal. */
  ghost predicate OrdinalClash(n: Naming, f: Facts, d: Declaration, e: Declaration) {
    var a, b := Effective(n, f, d), Effective(n, f, e);
    ExtendsByDigits(a, b) && Ordinal(Rank(n, f, d)) == b[|a|..] + Ordinal(Rank(n, f, e))
  }

  /** Two members of a group end up with one name exactly when an ordinal clashes. */
  lemma NamesCollideExactly(n: Naming, f: Facts, d: Declaration, e: Declaration)
    requires UsrsDistinct(f.all) && d != e
    requires d in Group(f.all, d.owningClassUsr, d.name) && e in Group(f.all, d.owningClassUsr, d.name)
    ensures Final(n, f, d) == Final(n, f, e) <==> OrdinalClash(n, f, d, e) || OrdinalClash(n, f, e, d)
  {
    var a, b := Effective(n, f, d), Effective(n, f, e);
    var x, y := Ordinal(Rank(n, f, d)), Ordinal(Rank(n, f, e));
    OrdinalDigits(Rank(n, f, d));
    OrdinalDigits(Rank(n, f, e));
    AppendedEqual(a, x, b, y);
    if a == b && x == y { SameNameSameMember(n, f, d, e); }
  }

  lemma SameNameSameMember(n: Naming, f: Facts, d: Declaration, e: Declaration)
    requires UsrsDistinct(f.all)
    requires d in Group(f.all, d.owningClassUsr, d.name) && e in Group(f.all, d.owningClassUsr, d.name)
    requires Effective(n, f, d) == Effective(n, f, e) && Ordinal(Rank(n, f, d)) == Ordinal(Rank(n, f, e))
    ensures d == e
  {
    GroupMembers(f.all, d.owningClassUsr, d.name);
    OrdinalInjective(Rank(n, f, d), Rank(n, f, e));
    var peers := Peers(n, f, d);
    assert Peers(n, f, e) == peers;
    LessTotal(d.usr, e.usr);
    if Less(d.usr, e.usr) { RanksDiffer(peers, d.usr, e.usr); }
    if Less(e.usr, d.usr) { RanksDiffer(peers, e.usr, d.usr); }
  }

  /** So a group without such digits has one name per member. */
  lemma NamesDistinct(n: Naming, f: Facts, d: Declaration, e: Declaration)
    requires UsrsDistinct(f.all) && NoDigitClash(n, f, d.owningClassUsr, d.name)
    requires d in Group(f.all, d.owningClassUsr, d.name) && e in Group(f.all, d.owningClassUsr, d.name)
    ensures Final(n, f, d) == Final(n, f, e) <==> d == e
  {
    if d != e { NamesCollideExactly(n, f, d, e); }
  }

  /** The clash is real: `f(Vec)` twice (say by value and by reference) and `f(Vec2)`.  The
      second `fVec` becomes `fVec2`. */
  lemma OrdinalMeetsTypeName(n: Naming, f: Facts, a: Declaration, b: Declaration, c: Declaration, p: Param, q: Param)
    requires f.all == [a, b, c] && f.functionParams == map[a.usr := [p], b.usr := [p], c.usr := [q]]
    requires Less(a.usr, b.usr) && c.usr != a.usr && c.usr != b.usr
    requires PlainF(n, a) && PlainF(n, b) && PlainF(n, c)
    requires n.suffix(p.ty) == "Vec" && n.suffix(q.ty) == "Vec2"
    ensures b != c && Final(n, f, b) == Final(n, f, c)
  {
    LessIrreflexive(a.usr); LessIrreflexive(b.usr); LessIrreflexive(c.usr);
    PlainEffective(n, f, a, b, c, a, p, "Vec");
    PlainEffective(n, f, a, b, c, b, p, "Vec");
    PlainEffective(n, f, a, b, c, c, q, "Vec2");
    ThreePeers(n, f, a, b, c);
    assert Before({c.usr}, c.usr) == {};
    assert Before({a.usr, b.usr}, b.usr) == {a.usr};
    assert Numeral(2) == "2";
    assert "f" + "Vec" + "2" == "f" + "Vec2" + "";
  }

  ghost predicate PlainF(n: Naming, d: Declaration) {
    d.name == "f" && d.isFreeOrMethod && d.owningClassUsr.None? && !d.isStatic && n.arity(d.signature) == 1
        && !n.isConst(d.signature)
  }

  lemma PlainEffective(n: Naming, f: Facts, a: Declaration, b: Declaration, c: Declaration, d: Declaration, p: Param,
                       suffix: string)
    requires f.all == [a, b, c] && PlainF(n, a) && PlainF(n, b) && PlainF(n, c) && d in [a, b, c]
    requires d.usr in f.functionParams && f.functionParams[d.usr] == [p] && n.suffix(p.ty) == suffix
    ensures Effective(n, f, d) == "f" + suffix
  {
    GroupOfThree(n, a, b, c);
    PlainDecision(n, a, b, c);
    assert OverloadName(n, "f", [p]) == "f" + suffix by { assert [p][1..] == []; }
    assert TypedName(n, f, d) == Some("f" + suffix + "");
  }

  lemma PlainDecision(n: Naming, a: Declaration, b: Declaration, c: Declaration)
    requires PlainF(n, a) && PlainF(n, b) && PlainF(n, c)
    ensures Decide(n, [a, b, c], None, "f") == ByType
  {
    GroupOfThree(n, a, b, c);
    assert Arities(n, [a, b, c]) == {1};
  }

  lemma ThreePeers(n: Naming, f: Facts, a: Declaration, b: Declaration, c: Declaration)
    requires f.all == [a, b, c] && PlainF(n, a) && PlainF(n, b) && PlainF(n, c)
    requires Effective(n, f, a) == Effective(n, f, b) != Effective(n, f, c)
    ensures Peers(n, f, c) == {c.usr} && Peers(n, f, b) == {a.usr, b.usr}
  {
    GroupOfThree(n, a, b, c);
    PeersOfThree(n, f, a, b, c, b);
    PeersOfThree(n, f, a, b, c, c);
  }

  lemma PeersOfThree(n: Naming, f: Facts, a: Declaration, b: Declaration, c: Declaration, d: Declaration)
    requires Group(f.all, d.owningClassUsr, d.name) == [a, b, c]
    ensures forall u :: u in Peers(n, f, d) <==>
      || (u == a.usr && Effective(n, f, a) == Effective(n, f, d))
      || (u == b.usr && Effective(n, f, b) == Effective(n, f, d))
      || (u == c.usr && Effective(n, f, c) == Effective(n, f, d))
  {
    assert forall e :: e in [a, b, c] <==> e == a || e == b || e == c;
  }

  lemma GroupOfThree(n: Naming, a: Declaration, b: Declaration, c: Declaration)
    requires PlainF(n, a) && PlainF(n, b) && PlainF(n, c)
    ensures Named([a, b, c], None, "f") == [a, b, c] && Group([a, b, c], None, "f") == [a, b, c]
  {
    assert [a, b, c][1..] == [b, c] && [b, c][1..] == [c] && [c][1..] == [];
    assert Callables([c]) == [c];
    assert Callables([b, c]) == [b, c];
    assert Callables([a, b, c]) == [a, b, c];
    assert Named([c], None, "f") == [c];
    assert Named([b, c], None, "f") == [b, c];
  }

  // ----- order -----

  lemma NamedStep(all: seq<Declaration>, owner: Option<string>, name: string)
    requires all != []
    ensures var d, rest := all[0], Named(all[1..], owner, name);
            Named(all, owner, name) == if d.owningClassUsr == owner && d.name == name then [d] + rest else rest
  {
    assert [] + Named(all[1..], owner, name) == Named(all[1..], owner, name);
  }

  lemma {:induction false} NamedCounts(all: seq<Declaration>, owner: Option<string>, name: string, d: Declaration)
    ensures multiset(Named(all, owner, name))[d] == if d.owningClassUsr == owner && d.name == name
        then multiset(all)[d] else 0
    decreases |all|
  {
    if all != [] {
      NamedCounts(all[1..], owner, name, d);
      NamedStep(all, owner, name);
      assert all == [all[0]] + all[1..];
    }
  }

  lemma {:induction false} CallableCounts(all: seq<Declaration>, d: Declaration)
    ensures multiset(Callables(all))[d] == if d.isFreeOrMethod then multiset(all)[d] else 0
    decreases |all|
  {
    if all != [] {
      CallableCounts(all[1..], d);
      assert all == [all[0]] + all[1..];
    }
  }

  lemma SameNamed(all: seq<Declaration>, other: seq<Declaration>, owner: Option<string>, name: string)
    requires multiset(all) == multiset(other)
    ensures multiset(Named(all, owner, name)) == multiset(Named(other, owner, name))
  {
    forall d ensures multiset(Named(all, owner, name))[d] == multiset(Named(other, owner, name))[d] {
      NamedCounts(all, owner, name, d);
      NamedCounts(other, owner, name, d);
    }
  }

  lemma SameCallables(all: seq<Declaration>, other: seq<Declaration>)
    requires multiset(all) == multiset(other)
    ensures multiset(Callables(all)) == multiset(Callables(other))
  {
    forall d ensures multiset(Callables(all))[d] == multiset(Callables(other))[d] {
      CallableCounts(all, d);
      CallableCounts(other, d);
    }
  }

  lemma SameMembers<T>(a: seq<T>, b: seq<T>)
    requires multiset(a) == multiset(b)
    ensures |a| == |b| && forall x :: x in a <==> x in b
  {
    assert |a| == |multiset(a)| && |b| == |multiset(b)|;
    forall x ensures x in a <==> x in b {
      assert x in multiset(a) <==> x in multiset(b);
    }
  }

  lemma PairsAgree<T>(a: seq<T>, b: seq<T>)
    requires multiset(a) == multiset(b) && |a| == 2
    ensures |b| == 2 && (b == a || b == [a[1], a[0]])
  {
    SameMembers(a, b);
    assert a == [a[0], a[1]] && b == [b[0], b[1]];
    assert b[0] in a;
    if b[0] == a[0] {
      assert multiset(a) - multiset{a[0]} == multiset{a[1]} && multiset(b) - multiset{a[0]} == multiset{b[1]};
      assert b[1] in multiset{a[1]};
    } else {
      assert multiset(a) - multiset{a[1]} == multiset{a[0]} && multiset(b) - multiset{a[1]} == multiset{b[1]};
      assert b[1] in multiset{a[0]};
    }
  }

  lemma DecisionIgnoresOrder(n: Naming, all: seq<Declaration>, other: seq<Declaration>, owner: Option<string>,
                             name: string)
    requires multiset(all) == multiset(other)
    ensures Decide(n, all, owner, name) == Decide(n, other, owner, name)
  {
    SameNamed(all, other, owner, name);
    var a, b := Named(all, owner, name), Named(other, owner, name);
    SameMembers(a, b);
    FactorsAgree(n, a, b);
  }

  /** What a decision rests on does not depend on order. */
  lemma FactorsAgree(n: Naming, a: seq<Declaration>, b: seq<Declaration>)
    requires multiset(a) == multiset(b) && |a| == |b| && forall d :: d in a <==> d in b
    ensures MixesStatic(a) == MixesStatic(b) && ConstPair(n, a) == ConstPair(n, b)
    ensures Arities(n, a) == Arities(n, b) && Results(n, a) == Results(n, b)
  {
    if |a| == 2 { PairsAgree(a, b); }
  }

  lemma GroupIgnoresOrder(all: seq<Declaration>, other: seq<Declaration>, owner: Option<string>, name: string)
    requires multiset(all) == multiset(other)
    ensures var a, b := Group(all, owner, name), Group(other, owner, name); |a| == |b| && forall d :: d in a <==> d in b
  {
    SameCallables(all, other);
    SameNamed(Callables(all), Callables(other), owner, name);
    SameMembers(Group(all, owner, name), Group(other, owner, name));
  }

  lemma ComputedIgnoresOrder(n: Naming, f: Facts, g: Facts, d: Declaration)
    requires multiset(f.all) == multiset(g.all) && g == f.(all := g.all) && !NamesOperator(d.name)
    ensures Computed(n, f, d) == Computed(n, g, d)
  {
    GroupIgnoresOrder(f.all, g.all, d.owningClassUsr, d.name);
    DecisionIgnoresOrder(n, f.all, g.all, d.owningClassUsr, d.name);
    assert TypedName(n, f, d) == TypedName(n, g, d);
  }

  /** Operators aside, the names do not depend on the order the declarations arrived in. */
  lemma NamesIgnoreOrder(n: Naming, f: Facts, g: Facts, d: Declaration)
    requires multiset(f.all) == multiset(g.all) && g == f.(all := g.all) && !NamesOperator(d.name)
    ensures Final(n, f, d) == Final(n, g, d)
  {
    ComputedIgnoresOrder(n, f, g, d);
    GroupIgnoresOrder(f.all, g.all, d.owningClassUsr, d.name);
    GroupMembers(f.all, d.owningClassUsr, d.name);
    forall e | e in Group(f.all, d.owningClassUsr, d.name) ensures Effective(n, f, e) == Effective(n, g, e) {
      ComputedIgnoresOrder(n, f, g, e);
    }
    assert Peers(n, f, d) == Peers(n, g, d);
  }

  // ----- the pass -----

  type Key = (Option<string>, string)

  function KeyOf(d: Declaration): Key {
    (d.owningClassUsr, d.name)
  }

  method GroupByName(all: seq<Declaration>) returns (groups: map<Key, seq<Declaration>>)
    ensures forall d | d in all && d.isFreeOrMethod :: KeyOf(d) in groups
    ensures forall k | k in groups :: groups[k] == Group(all, k.0, k.1)
  {
    groups := map[];
    for i := 0 to |all|
      invariant forall d | d in all[..i] && d.isFreeOrMethod :: KeyOf(d) in groups
      invariant forall k | k in groups :: groups[k] == Group(all[..i], k.0, k.1)
      invariant forall k: Key | k !in groups :: Group(all[..i], k.0, k.1) == []
    {
      assert all[..i + 1] == all[..i] + [all[i]];
      forall k: Key { GroupAppend(all[..i], all[i], k.0, k.1); }
      if all[i].isFreeOrMethod {
        var k := KeyOf(all[i]);
        groups := groups[k := (if k in groups then groups[k] else []) + [all[i]]];
      }
    }
    assert all[..|all|] == all;
  }

  lemma {:induction false} NamedAppend(all: seq<Declaration>, d: Declaration, owner: Option<string>, name: string)
    ensures Named(all + [d], owner, name) == Named(all, owner, name) + if KeyOf(d) == (owner, name) then [d] else []
    decreases |all|
  {
    if all == [] {
      assert ([] + [d])[1..] == [];
    } else {
      assert (all + [d])[1..] == all[1..] + [d];
      NamedAppend(all[1..], d, owner, name);
    }
  }

  lemma {:induction false} CallablesAppend(all: seq<Declaration>, d: Declaration)
    ensures Callables(all + [d]) == Callables(all) + if d.isFreeOrMethod then [d] else []
    decreases |all|
  {
    if all == [] {
      assert ([] + [d])[1..] == [];
    } else {
      assert (all + [d])[1..] == all[1..] + [d];
      CallablesAppend(all[1..], d);
    }
  }

  lemma GroupAppend(all: seq<Declaration>, d: Declaration, owner: Option<string>, name: string)
    ensures Group(all + [d], owner, name) == Group(all, owner, name) + if d.isFreeOrMethod && KeyOf(d) == (owner, name)
        then [d] else []
  {
    CallablesAppend(all, d);
    if d.isFreeOrMethod {
      NamedAppend(Callables(all), d, owner, name);
    } else {
      assert Callables(all) + [] == Callables(all);
    }
  }

  /** How a declaration is spelled under a renaming. */
  function Spelled(renames: map<string, string>, d: Declaration): string {
    if d.usr in renames then renames[d.usr] else d.name
  }

  ghost predicate SpellsComputed(n: Naming, f: Facts, renames: map<string, string>, d: Declaration) {
    Spelled(renames, d) == Effective(n, f, d)
  }

  /** Names one group; nobody else's entry is touched. */
  method NameGroup(n: Naming, f: Facts, group: seq<Declaration>, renames: map<string, string>)
      returns (r: map<string, string>)
    requires forall d | d in group :: d.usr !in renames
    requires OneUsrEach(group)
    ensures forall d | d in group :: SpellsComputed(n, f, r, d)
    ensures forall u | (forall d | d in group :: d.usr != u) :: Entry(r, u) == Entry(renames, u)
  {
    r := renames;
    for i := 0 to |group|
      invariant forall k | 0 <= k < i :: Entry(r, group[k].usr) == Computed(n, f, group[k])
      invariant forall k | i <= k < |group| :: group[k].usr !in r
      invariant forall u | (forall d | d in group :: d.usr != u) :: Entry(r, u) == Entry(renames, u)
    {
      var name := Computed(n, f, group[i]);
      assert group[i] in group;
      if name.Some? {
        r := r[group[i].usr := name.value];
      }
    }
    forall d | d in group ensures SpellsComputed(n, f, r, d) {
      var k :| 0 <= k < |group| && group[k] == d;
      assert Entry(r, group[k].usr) == Computed(n, f, group[k]);
    }
  }

  ghost predicate OneUsrEach(group: seq<Declaration>) {
    forall i, j | 0 <= i < j < |group| :: group[i].usr != group[j].usr
  }

  function Usr(u: string): string { u }

  /** The usrs of a group under each computed name. */
  ghost predicate Buckets(n: Naming, f: Facts, group: seq<Declaration>, byName: map<string, seq<string>>) {
    && (forall d | d in group :: Effective(n, f, d) in byName)
    && (forall name | name in byName :: Bucket(n, f, group, name, byName[name]))
  }

  ghost predicate Bucket(n: Naming, f: Facts, group: seq<Declaration>, name: string, usrs: seq<string>) {
    DistinctBy(Usr, usrs) && Elements(usrs) == Sharing(n, f, group, name)
  }

  function Sharing(n: Naming, f: Facts, group: seq<Declaration>, name: string): set<string> {
    set d | d in group && Effective(n, f, d) == name :: d.usr
  }

  method BucketByName(n: Naming, f: Facts, group: seq<Declaration>, renames: map<string, string>)
      returns (byName: map<string, seq<string>>)
    requires OneUsrEach(group)
    requires forall d | d in group :: SpellsComputed(n, f, renames, d)
    ensures Buckets(n, f, group, byName)
  {
    byName := map[];
    for i := 0 to |group|
      invariant Buckets(n, f, group[..i], byName)
    {
      var d := group[i];
      assert d in group;
      var name := Spelled(renames, d);
      var usrs := if name in byName then byName[name] else [];
      BucketGrows(n, f, group, i, usrs);
      byName := byName[name := usrs + [d.usr]];
    }
    assert group[..|group|] == group;
  }

  lemma BucketGrows(n: Naming, f: Facts, group: seq<Declaration>, i: nat, usrs: seq<string>)
    requires i < |group| && OneUsrEach(group)
    requires (usrs == [] && Sharing(n, f, group[..i], Effective(n, f, group[i])) == {})
          || Bucket(n, f, group[..i], Effective(n, f, group[i]), usrs)
    ensures Bucket(n, f, group[..i + 1], Effective(n, f, group[i]), usrs + [group[i].usr])
    ensures forall name, us | name != Effective(n, f, group[i]) ::
      Bucket(n, f, group[..i], name, us) ==> Bucket(n, f, group[..i + 1], name, us)
  {
    var d := group[i];
    assert group[..i + 1] == group[..i] + [d];
    assert Sharing(n, f, group[..i + 1], Effective(n, f, d)) == Sharing(n, f, group[..i], Effective(n, f, d)) + {d.usr};
    assert d.usr !in Sharing(n, f, group[..i], Effective(n, f, d));
    forall k | 0 <= k < |usrs| ensures usrs[k] != d.usr { assert usrs[k] in Elements(usrs); }
    assert Elements(usrs + [d.usr]) == Elements(usrs) + {d.usr};
    forall name | name != Effective(n, f, d)
        ensures Sharing(n, f, group[..i + 1], name) == Sharing(n, f, group[..i], name) {
    }
  }

  /** The place in the sorted bucket is the rank. */
  lemma PlaceIsRank(n: Naming, f: Facts, group: seq<Declaration>, d: Declaration, sorted: seq<string>, k: nat)
    requires group == Group(f.all, d.owningClassUsr, d.name) && d in group
    requires SortedBy(Usr, sorted) && Elements(sorted) == Sharing(n, f, group, Effective(n, f, d))
    requires k < |sorted| && sorted[k] == d.usr
    ensures Rank(n, f, d) == k
  {
    PositionIsRank(Usr, sorted, k);
    assert Below(Usr, sorted, d.usr) == Before(Elements(sorted), d.usr);
    assert Peers(n, f, d) == Sharing(n, f, group, Effective(n, f, d));
  }

  /** Hands out the ordinals of one shared name. */
  method NumberName(name: string, sorted: seq<string>, renames: map<string, string>) returns (r: map<string, string>)
    requires SortedBy(Usr, sorted) && sorted != []
    ensures forall u | u !in sorted :: Entry(r, u) == Entry(renames, u)
    ensures Entry(r, sorted[0]) == Entry(renames, sorted[0])
    ensures forall k | 1 <= k < |sorted| :: Entry(r, sorted[k]) == Some(name + Numeral(k + 1))
  {
    r := renames;
    for ordinal := 1 to |sorted|
      invariant forall u | u !in sorted :: Entry(r, u) == Entry(renames, u)
      invariant Entry(r, sorted[0]) == Entry(renames, sorted[0])
      invariant forall k | 1 <= k < ordinal :: Entry(r, sorted[k]) == Some(name + Numeral(k + 1))
    {
      forall k | 0 <= k < ordinal ensures sorted[k] != sorted[ordinal] {
        assert Less(Usr(sorted[k]), Usr(sorted[ordinal]));
        LessIrreflexive(sorted[k]);
      }
      r := r[sorted[ordinal] := name + Numeral(ordinal + 1)];
    }
  }

  ghost predicate SpellsFinal(n: Naming, f: Facts, renames: map<string, string>, d: Declaration) {
    Spelled(renames, d) == Final(n, f, d)
  }

  lemma NumberedName(n: Naming, f: Facts, group: seq<Declaration>, sorted: seq<string>, name: string,
                     renames: map<string, string>, r: map<string, string>, d: Declaration)
    requires group == Group(f.all, d.owningClassUsr, d.name) && d in group && Effective(n, f, d) == name
    requires SortedBy(Usr, sorted) && Elements(sorted) == Sharing(n, f, group, name) && sorted != []
    requires SpellsComputed(n, f, renames, d)
    requires Entry(r, sorted[0]) == Entry(renames, sorted[0])
    requires forall k | 1 <= k < |sorted| :: Entry(r, sorted[k]) == Some(name + Numeral(k + 1))
    ensures SpellsFinal(n, f, r, d)
  {
    assert d.usr in Elements(sorted);
    var k :| 0 <= k < |sorted| && sorted[k] == d.usr;
    PlaceIsRank(n, f, group, d, sorted, k);
    if k == 0 {
      assert name + "" == name;
      assert Entry(r, d.usr) == Entry(renames, d.usr);
    } else {
      assert Entry(r, d.usr) == Some(name + Numeral(k + 1));
    }
  }

  ghost predicate IsGroup(f: Facts, group: seq<Declaration>) {
    forall d | d in group :: group == Group(f.all, d.owningClassUsr, d.name)
  }

  method NumberGroup(n: Naming, f: Facts, group: seq<Declaration>, renames: map<string, string>)
      returns (r: map<string, string>)
    requires OneUsrEach(group) && IsGroup(f, group)
    requires forall d | d in group :: SpellsComputed(n, f, renames, d)
    ensures forall d | d in group :: SpellsFinal(n, f, r, d)
    ensures forall u | (forall d | d in group :: d.usr != u) :: Entry(r, u) == Entry(renames, u)
  {
    r := renames;
    var byName: map<string, seq<string>> := BucketByName(n, f, group, renames);
    var todo := byName.Keys;
    while todo != {}
      invariant todo <= byName.Keys
      invariant forall d | d in group :: if Effective(n, f, d) in todo then Entry(r, d.usr) == Entry(renames, d.usr)
          else SpellsFinal(n, f, r, d)
      invariant forall u | (forall d | d in group :: d.usr != u) :: Entry(r, u) == Entry(renames, u)
      decreases |todo|
    {
      var name :| name in todo;
      todo := todo - {name};
      assert Bucket(n, f, group, name, byName[name]);
      r := NumberBucket(n, f, group, name, byName[name], renames, r);
    }
  }

  method NumberBucket(n: Naming, f: Facts, group: seq<Declaration>, name: string, usrs: seq<string>,
                      ghost renames: map<string, string>, before: map<string, string>) returns (r: map<string, string>)
    requires OneUsrEach(group) && IsGroup(f, group) && Bucket(n, f, group, name, usrs)
    requires forall d | d in group :: SpellsComputed(n, f, renames, d)
    requires forall d | d in group && Effective(n, f, d) == name :: Entry(before, d.usr) == Entry(renames, d.usr)
    ensures forall d | d in group && Effective(n, f, d) == name :: SpellsFinal(n, f, r, d)
    ensures forall d | d in group && Effective(n, f, d) != name :: Entry(r, d.usr) == Entry(before, d.usr)
    ensures forall u | (forall d | d in group :: d.usr != u) :: Entry(r, u) == Entry(before, u)
  {
    r := before;
    BucketMembers(n, f, group, name, usrs);
    var sorted := SortDistinct(Usr, usrs);
    if |usrs| > 1 {
      assert usrs[0] in usrs;
      r := NumberName(name, sorted, before);
    }
    forall d | d in group && Effective(n, f, d) == name ensures SpellsFinal(n, f, r, d) {
      SortedBucket(n, f, group, name, usrs, sorted, d);
      NumberedName(n, f, group, sorted, name, renames, r, d);
    }
  }

  lemma BucketMembers(n: Naming, f: Facts, group: seq<Declaration>, name: string, usrs: seq<string>)
    requires OneUsrEach(group) && Bucket(n, f, group, name, usrs)
    ensures forall d | d in group :: d.usr in usrs <==> Effective(n, f, d) == name
    ensures forall u | u in usrs :: exists d | d in group :: d.usr == u
  {
    forall d | d in group ensures d.usr in usrs <==> Effective(n, f, d) == name {
      BucketMember(n, f, group, name, usrs, d);
    }
    forall u | u in usrs ensures exists d | d in group :: d.usr == u {
      assert u in Elements(usrs);
    }
  }

  lemma BucketMember(n: Naming, f: Facts, group: seq<Declaration>, name: string, usrs: seq<string>, d: Declaration)
    requires OneUsrEach(group) && Bucket(n, f, group, name, usrs) && d in group
    ensures d.usr in usrs <==> Effective(n, f, d) == name
  {
    assert d.usr in usrs <==> d.usr in Elements(usrs);
    assert Effective(n, f, d) == name ==> d.usr in Sharing(n, f, group, name);
    if d.usr in Sharing(n, f, group, name) {
      var e :| e in group && Effective(n, f, e) == name && e.usr == d.usr;
      assert e == d;
    }
  }

  lemma SortedBucket(n: Naming, f: Facts, group: seq<Declaration>, name: string, usrs: seq<string>,
                     sorted: seq<string>, d: Declaration)
    requires Bucket(n, f, group, name, usrs) && SortedBy(Usr, sorted) && SameElements(sorted, usrs)
    requires d in group && Effective(n, f, d) == name
    ensures Elements(sorted) == Sharing(n, f, group, name) && sorted != [] && (|usrs| <= 1 ==> |sorted| == 1)
        && sorted[0] in usrs
  {
    assert Elements(sorted) == Elements(usrs);
    assert d.usr in Elements(sorted);
    if |usrs| <= 1 {
      CountDistinct(usrs);
      CountSorted(Usr, sorted);
    }
    assert sorted[0] in sorted;
  }

  lemma CountDistinct(usrs: seq<string>)
    requires |usrs| <= 1
    ensures |Elements(usrs)| == |usrs|
  {
    if |usrs| == 1 { assert Elements(usrs) == {usrs[0]}; } else { assert Elements(usrs) == {}; }
  }

  /** A usr occurs once among the callables. */
  ghost predicate EachOnce(all: seq<Declaration>) {
    OneUsrEach(Callables(all))
  }

  lemma NamedSublist(all: seq<Declaration>, owner: Option<string>, name: string)
    requires OneUsrEach(all)
    ensures OneUsrEach(Named(all, owner, name))
  {
    if all != [] {
      forall i, j | 0 <= i < j < |all[1..]| ensures all[1..][i].usr != all[1..][j].usr {
        assert all[1..][i] == all[i + 1] && all[1..][j] == all[j + 1];
      }
      NamedSublist(all[1..], owner, name);
      var rest := Named(all[1..], owner, name);
      NamedMembers(all[1..], owner, name);
      forall j | 0 <= j < |rest| ensures rest[j].usr != all[0].usr {
        assert rest[j] in all[1..];
        var k :| 0 <= k < |all[1..]| && all[1..][k] == rest[j];
        assert all[k + 1] == rest[j];
      }
    }
  }

  lemma GroupIsGroup(f: Facts, k: Key)
    requires EachOnce(f.all)
    ensures OneUsrEach(Group(f.all, k.0, k.1)) && IsGroup(f, Group(f.all, k.0, k.1))
  {
    NamedSublist(Callables(f.all), k.0, k.1);
    GroupMembers(f.all, k.0, k.1);
  }

  /** Usrs of different groups differ. */
  lemma GroupsApart(f: Facts, k: Key, l: Key, d: Declaration, e: Declaration)
    requires EachOnce(f.all) && d in Group(f.all, k.0, k.1) && e in Group(f.all, l.0, l.1) && d.usr == e.usr
    ensures k == l
  {
    GroupMembers(f.all, k.0, k.1);
    GroupMembers(f.all, l.0, l.1);
    CallableMembers(f.all);
    var cs := Callables(f.all);
    var i :| 0 <= i < |cs| && cs[i] == d;
    var j :| 0 <= j < |cs| && cs[j] == e;
    assert i == j;
  }

  ghost predicate GroupSpelled(n: Naming, f: Facts, renames: map<string, string>, k: Key) {
    forall d | d in Group(f.all, k.0, k.1) :: SpellsComputed(n, f, renames, d)
  }

  ghost predicate GroupNumbered(n: Naming, f: Facts, renames: map<string, string>, k: Key) {
    forall d | d in Group(f.all, k.0, k.1) :: SpellsFinal(n, f, renames, d)
  }

  /** No entry for anyone in the group. */
  ghost predicate Unnamed(f: Facts, renames: map<string, string>, k: Key) {
    forall d | d in Group(f.all, k.0, k.1) :: d.usr !in renames
  }

  lemma ElsewhereUntouched(n: Naming, f: Facts, before: map<string, string>, after: map<string, string>, k: Key, l: Key)
    requires EachOnce(f.all) && k != l
    requires forall u | (forall d | d in Group(f.all, k.0, k.1) :: d.usr != u) :: Entry(after, u) == Entry(before, u)
    ensures GroupNumbered(n, f, before, l) ==> GroupNumbered(n, f, after, l)
    ensures GroupSpelled(n, f, before, l) ==> GroupSpelled(n, f, after, l)
    ensures Unnamed(f, before, l) ==> Unnamed(f, after, l)
  {
    forall e | e in Group(f.all, l.0, l.1) ensures Entry(after, e.usr) == Entry(before, e.usr) {
      forall d | d in Group(f.all, k.0, k.1) ensures d.usr != e.usr {
        if d.usr == e.usr { GroupsApart(f, k, l, d, e); }
      }
    }
  }

  lemma SmallGroup(n: Naming, f: Facts, k: Key, renames: map<string, string>)
    requires |Group(f.all, k.0, k.1)| <= 1
    ensures Unnamed(f, renames, k) ==> GroupSpelled(n, f, renames, k)
    ensures GroupSpelled(n, f, renames, k) ==> GroupNumbered(n, f, renames, k)
  {
    GroupMembers(f.all, k.0, k.1);
    forall d | d in Group(f.all, k.0, k.1) ensures Effective(n, f, d) == d.name && Final(n, f, d) == d.name {
      AloneKeepsName(n, f, d);
    }
  }

  lemma AloneKeepsName(n: Naming, f: Facts, d: Declaration)
    requires d in Group(f.all, d.owningClassUsr, d.name) && |Group(f.all, d.owningClassUsr, d.name)| <= 1
    ensures Effective(n, f, d) == d.name && Final(n, f, d) == d.name
  {
    LessIrreflexive(d.usr);
    var group := Group(f.all, d.owningClassUsr, d.name);
    assert group == [d];
    assert forall e | e in group :: e == d;
    assert Before(Peers(n, f, d), d.usr) == {};
    assert d.name + "" == d.name;
  }

  /** First every group gets its computed names, then every group its ordinals. */
  method OverloadRenames(n: Naming, f: Facts) returns (renames: map<string, string>)
    requires EachOnce(f.all)
    ensures forall d | d in f.all && d.isFreeOrMethod :: Spelled(renames, d) == Final(n, f, d)
  {
    var groups: map<Key, seq<Declaration>> := GroupByName(f.all);
    renames := map[];
    var todo := groups.Keys;
    while todo != {}
      invariant todo <= groups.Keys
      invariant forall k | k in groups :: if k in todo then Unnamed(f, renames, k) else GroupSpelled(n, f, renames, k)
      decreases |todo|
    {
      var k :| k in todo;
      todo := todo - {k};
      ghost var before := renames;
      GroupIsGroup(f, k);
      if |groups[k]| > 1 {
        renames := NameGroup(n, f, groups[k], renames);
      } else {
        SmallGroup(n, f, k, renames);
      }
      forall l | l in groups && l != k
        ensures if l in todo then Unnamed(f, renames, l) else GroupSpelled(n, f, renames, l)
      {
        ElsewhereUntouched(n, f, before, renames, k, l);
      }
    }
    todo := groups.Keys;
    while todo != {}
      invariant todo <= groups.Keys
      invariant forall k | k in groups :: if k in todo then GroupSpelled(n, f, renames, k)
          else GroupNumbered(n, f, renames, k)
      decreases |todo|
    {
      var k :| k in todo;
      todo := todo - {k};
      ghost var before := renames;
      GroupIsGroup(f, k);
      if |groups[k]| > 1 {
        renames := NumberGroup(n, f, groups[k], renames);
      } else {
        SmallGroup(n, f, k, renames);
      }
      forall l | l in groups && l != k ensures if l in todo then GroupSpelled(n, f, renames, l)
          else GroupNumbered(n, f, renames, l) {
        ElsewhereUntouched(n, f, before, renames, k, l);
      }
    }
    forall d | d in f.all && d.isFreeOrMethod ensures Spelled(renames, d) == Final(n, f, d) {
      GroupMembers(f.all, d.owningClassUsr, d.name);
      assert GroupNumbered(n, f, renames, KeyOf(d));
    }
  }

  // ----- resolution -----

  /** A call that is spelled like its callee resolves, by name within the callee's group, to
      that callee and no other member. */
  lemma CallsResolve(n: Naming, f: Facts, renames: map<string, string>, callee: Declaration, d: Declaration,
                     spelling: string)
    requires UsrsDistinct(f.all) && NoDigitClash(n, f, callee.owningClassUsr, callee.name)
    requires callee in Group(f.all, callee.owningClassUsr, callee.name)
        && d in Group(f.all, callee.owningClassUsr, callee.name)
    requires forall e | e in f.all && e.isFreeOrMethod :: Spelled(renames, e) == Final(n, f, e)
    requires spelling == ByUsr(renames)(callee.usr, callee.name)
    ensures Spelled(renames, d) == spelling <==> d == callee
  {
    GroupMembers(f.all, callee.owningClassUsr, callee.name);
    NamesDistinct(n, f, callee, d);
  }

  ghost predicate Finals(n: Naming, f: Facts, names: string -> string) {
    forall d | d in f.all && d.isFreeOrMethod :: names(d.usr) == Final(n, f, d)
  }

  /** In its own group a name stands for one member. */
  ghost predicate Resolves(n: Naming, f: Facts, names: string -> string) {
    forall d, e | SameGroup(f, d, e) && NoDigitClash(n, f, d.owningClassUsr, d.name) :: names(d.usr) == names(e.usr)
        <==> d == e
  }

  ghost predicate SameGroup(f: Facts, d: Declaration, e: Declaration) {
    d in Group(f.all, d.owningClassUsr, d.name) && e in Group(f.all, d.owningClassUsr, d.name)
  }

  lemma EachOnceDistinct(all: seq<Declaration>)
    requires EachOnce(all)
    ensures UsrsDistinct(all)
  {
    CallableMembers(all);
  }

  lemma FinalsResolve(n: Naming, f: Facts, names: string -> string)
    requires EachOnce(f.all) && Finals(n, f, names)
    ensures Resolves(n, f, names)
  {
    EachOnceDistinct(f.all);
    forall d, e | SameGroup(f, d, e) && NoDigitClash(n, f, d.owningClassUsr, d.name)
        ensures names(d.usr) == names(e.usr) <==> d == e {
      GroupMembers(f.all, d.owningClassUsr, d.name);
      NamesDistinct(n, f, d, e);
    }
  }
}
