/**
 Joining the workers' partial lowerings of functions and records.  The joined
 catalog knows exactly what the partials know together, whatever their order.
 */
module Merge {
  import opened Wrappers
  import opened Ir
  import opened Dedup

  // ----- lists joined by identity -----

  /** `merge(existing, incoming)` replaces the existing entry.  `newest` tells which of several
      entries with one identity is found: the last in an index map built from the list, the
      first in a search from the front. */
  datatype Join<!T> = Join(id: T -> string, merge: (T, T) -> T, newest: bool)

  function Locate<T>(j: Join<T>, acc: seq<T>, k: string): (i: Option<nat>)
    ensures i.Some? ==> i.value < |acc| && j.id(acc[i.value]) == k
    ensures i.None? ==> forall n | 0 <= n < |acc| :: j.id(acc[n]) != k
    decreases |acc|
  {
    if acc == [] then None
    else if j.newest then
      if j.id(acc[|acc| - 1]) == k then Some(|acc| - 1) else Locate(j, acc[..|acc| - 1], k)
    else if j.id(acc[0]) == k then Some(0)
    else match Locate(j, acc[1..], k)
      case None => None
      case Some(i) => Some(i + 1)
  }

  function Absorb<T>(j: Join<T>, acc: seq<T>, x: T): (r: seq<T>) {
    match Locate(j, acc, j.id(x))
    case None => acc + [x]
    case Some(i) => acc[i := j.merge(acc[i], x)]
  }

  function Fold<T>(j: Join<T>, acc: seq<T>, xs: seq<T>): seq<T>
    decreases |xs|
  {
    if xs == [] then acc else Fold(j, Absorb(j, acc, xs[0]), xs[1..])
  }

  lemma {:induction false} FoldAppend<T>(j: Join<T>, acc: seq<T>, a: seq<T>, b: seq<T>)
    ensures Fold(j, acc, a + b) == Fold(j, Fold(j, acc, a), b)
    decreases |a|
  {
    if a == [] {
      assert a + b == b;
    } else {
      assert (a + b)[1..] == a[1..] + b;
      FoldAppend(j, Absorb(j, acc, a[0]), a[1..], b);
    }
  }

  // ----- facts: what a list establishes -----

  ghost function FactsOf<T(!new), F>(facts: T -> set<F>, xs: seq<T>): set<F> {
    set x, f | x in xs && f in facts(x) :: f
  }

  ghost predicate KeepsId<T(!new)>(j: Join<T>) {
    forall a, b :: j.id(a) == j.id(b) ==> j.id(j.merge(a, b)) == j.id(a)
  }

  /** Joining two entries of one identity joins what they establish. */
  ghost predicate Unions<T(!new), F>(j: Join<T>, facts: T -> set<F>) {
    forall a, b :: j.id(a) == j.id(b) ==> facts(j.merge(a, b)) == facts(a) + facts(b)
  }

  lemma AbsorbFacts<T(!new), F>(j: Join<T>, facts: T -> set<F>, acc: seq<T>, x: T)
    requires Unions(j, facts)
    ensures FactsOf(facts, Absorb(j, acc, x)) == FactsOf(facts, acc) + facts(x)
  {
    var r := Absorb(j, acc, x);
    match Locate(j, acc, j.id(x)) {
      case None =>
        forall f ensures f in FactsOf(facts, r) <==> f in FactsOf(facts, acc) + facts(x) {
          if f in facts(x) { assert x in r; }
        }
      case Some(i) =>
        assert facts(r[i]) == facts(acc[i]) + facts(x);
        assert acc == acc[..i] + ([acc[i]] + acc[i + 1..]) && r == acc[..i] + ([r[i]] + acc[i + 1..]);
        FactsAround(facts, acc[..i], acc[i], acc[i + 1..]);
        FactsAround(facts, acc[..i], r[i], acc[i + 1..]);
    }
  }

  lemma FactsAround<T(!new), F>(facts: T -> set<F>, before: seq<T>, x: T, after: seq<T>)
    ensures FactsOf(facts, before + ([x] + after)) == FactsOf(facts, before) + facts(x) + FactsOf(facts, after)
  {
    FactsOfAppend(facts, before, [x] + after);
    FactsOfCons(facts, [x] + after);
    assert ([x] + after)[1..] == after;
  }

  lemma {:induction false} FoldFacts<T(!new), F>(j: Join<T>, facts: T -> set<F>, acc: seq<T>, xs: seq<T>)
    requires Unions(j, facts)
    ensures FactsOf(facts, Fold(j, acc, xs)) == FactsOf(facts, acc) + FactsOf(facts, xs)
    decreases |xs|
  {
    if xs != [] {
      AbsorbFacts(j, facts, acc, xs[0]);
      FoldFacts(j, facts, Absorb(j, acc, xs[0]), xs[1..]);
      FactsOfCons(facts, xs);
    }
  }

  lemma FactsOfCons<T(!new), F>(facts: T -> set<F>, xs: seq<T>)
    requires xs != []
    ensures FactsOf(facts, xs) == facts(xs[0]) + FactsOf(facts, xs[1..])
  {
    assert xs == [xs[0]] + xs[1..];
  }

  lemma FactsOfAppend<T(!new), F>(facts: T -> set<F>, a: seq<T>, b: seq<T>)
    ensures FactsOf(facts, a + b) == FactsOf(facts, a) + FactsOf(facts, b)
  {
    forall f ensures f in FactsOf(facts, a + b) <==> f in FactsOf(facts, a) + FactsOf(facts, b) {
      if f in FactsOf(facts, a) { var x :| x in a && f in facts(x); assert x in a + b; }
      if f in FactsOf(facts, b) { var x :| x in b && f in facts(x); assert x in a + b; }
    }
  }

  // ----- one entry per identity -----

  ghost predicate OnePerId<T>(j: Join<T>, acc: seq<T>) {
    forall m, n | 0 <= m < n < |acc| :: j.id(acc[m]) != j.id(acc[n])
  }

  lemma {:induction false} FoldOnePerId<T(!new)>(j: Join<T>, acc: seq<T>, xs: seq<T>)
    requires KeepsId(j) && OnePerId(j, acc)
    ensures OnePerId(j, Fold(j, acc, xs))
    decreases |xs|
  {
    if xs != [] { FoldOnePerId(j, Absorb(j, acc, xs[0]), xs[1..]); }
  }

  // ----- the representative -----

  function Stripped<T>(strip: T -> T, xs: seq<T>): (r: seq<T>)
    ensures |r| == |xs| && forall i | 0 <= i < |xs| :: r[i] == strip(xs[i])
  {
    if xs == [] then [] else [strip(xs[0])] + Stripped(strip, xs[1..])
  }

  /** Up to what `strip` removes, joining keeps the first definition, or failing any the first entry. */
  ghost predicate Selects<T(!new)>(j: Join<T>, kind: Kind<T, string>, strip: T -> T) {
    && (forall a :: kind.id(strip(a)) == j.id(a))
    && (forall a, b :: j.id(a) == j.id(b) ==>
          strip(j.merge(a, b)) == if !kind.defined(strip(a)) && kind.defined(strip(b)) then strip(b) else strip(a))
  }

  lemma AbsorbSelects<T(!new)>(j: Join<T>, kind: Kind<T, string>, strip: T -> T, acc: seq<T>, x: T)
    requires Selects(j, kind, strip) && OnePerId(j, acc)
    ensures Stripped(strip, Absorb(j, acc, x)) == Push(kind, Stripped(strip, acc), strip(x))
  {
    var s := Stripped(strip, acc);
    match Locate(j, acc, j.id(x)) {
      case None =>
        assert Find(kind, s, kind.id(strip(x))).None?;
      case Some(i) =>
        assert kind.id(s[i]) == kind.id(strip(x));
        var f := Find(kind, s, kind.id(strip(x)));
        assert f.Some? && j.id(acc[f.value]) == j.id(acc[i]);
        assert f.value == i;
    }
  }

  lemma {:induction false} FoldSelects<T(!new)>(j: Join<T>, kind: Kind<T, string>, strip: T -> T, acc: seq<T>,
      xs: seq<T>)
    requires Selects(j, kind, strip) && KeepsId(j) && OnePerId(j, acc)
    ensures Stripped(strip, Fold(j, acc, xs)) == Pass(kind, Stripped(strip, acc), Stripped(strip, xs))
    decreases |xs|
  {
    if xs != [] {
      AbsorbSelects(j, kind, strip, acc, xs[0]);
      FoldOnePerId(j, acc, [xs[0]]);
      assert Fold(j, acc, [xs[0]]) == Absorb(j, acc, xs[0]) by { assert [xs[0]][1..] == []; }
      FoldSelects(j, kind, strip, Absorb(j, acc, xs[0]), xs[1..]);
      assert Stripped(strip, xs)[1..] == Stripped(strip, xs[1..]);
    }
  }

  // ----- default values -----

  function Carried(params: seq<Param>, from: seq<Param>): (r: seq<Param>)
    ensures |r| == |params|
    ensures forall i | 0 <= i < |params| ::
      r[i] == if params[i].defaultValue.None? && i < |from| then params[i].(defaultValue := from[i].defaultValue)
          else params[i]
  {
    seq(|params|, i requires 0 <= i < |params| =>
      if params[i].defaultValue.None? && i < |from| && from[i].defaultValue.Some?
      then params[i].(defaultValue := from[i].defaultValue) else params[i])
  }

  ghost function Slots(params: seq<Param>): set<nat> {
    set i | 0 <= i < |params| && params[i].defaultValue.Some?
  }

  lemma CarriedSlots(params: seq<Param>, from: seq<Param>)
    ensures Slots(Carried(params, from)) == Slots(params) + set i | i in Slots(from) && i < |params|
  {
  }

  method CarryDefaults(params: seq<Param>, from: seq<Param>) returns (r: seq<Param>)
    ensures r == Carried(params, from)
  {
    r := params;
    for i := 0 to |params|
      invariant |r| == |params| && r[..i] == Carried(params, from)[..i] && r[i..] == params[i..]
    {
      assert r[i] == r[i..][0] == params[i];
      if r[i].defaultValue.None? && i < |from| && from[i].defaultValue.Some? {
        r := r[i := r[i].(defaultValue := from[i].defaultValue)];
      }
      assert r[..i + 1] == r[..i] + [r[i]] && r[i + 1..] == params[i + 1..];
    }
  }

  function Bare(params: seq<Param>): (r: seq<Param>)
    ensures |r| == |params| && forall i | 0 <= i < |params| :: r[i] == params[i].(defaultValue := None)
  {
    seq(|params|, i requires 0 <= i < |params| => params[i].(defaultValue := None))
  }

  lemma BareCarried(params: seq<Param>, from: seq<Param>)
    ensures Bare(Carried(params, from)) == Bare(params)
  {
  }

  /** Merging entries of equal arity never takes a default value away. */
  ghost predicate Grows<T(!new)>(j: Join<T>, params: T -> seq<Param>) {
    forall a, b :: j.id(a) == j.id(b) && |params(a)| == |params(b)| ==>
      |params(j.merge(a, b))| == |params(a)| && Slots(params(a)) <= Slots(params(j.merge(a, b)))
  }

  /** Through any number of merges, an entry keeps its place, its identity and its defaults. */
  lemma {:induction false} DefaultsNeverShrink<T(!new)>(j: Join<T>, params: T -> seq<Param>, acc: seq<T>, xs: seq<T>,
      i: nat)
    requires KeepsId(j) && Grows(j, params) && i < |acc|
    requires forall x | x in xs && j.id(x) == j.id(acc[i]) :: |params(x)| == |params(acc[i])|
    ensures var r := Fold(j, acc, xs);
            i < |r| && j.id(r[i]) == j.id(acc[i]) && |params(r[i])| == |params(acc[i])|
                && Slots(params(acc[i])) <= Slots(params(r[i]))
    decreases |xs|
  {
    if xs != [] {
      var next := Absorb(j, acc, xs[0]);
      assert xs[0] in xs;
      assert j.id(next[i]) == j.id(acc[i]);
      assert forall x | x in xs[1..] :: x in xs;
      DefaultsNeverShrink(j, params, next, xs[1..], i);
    }
  }

  // ----- functions -----

  /** A lowered function and whether only its prototype was seen. */
  datatype Lowered = Lowered(function_: Function, isPrototype: bool)

  function MergedFunction(e: Lowered, f: Lowered): Lowered {
    if e.isPrototype && !f.isPrototype then
      Lowered(f.function_.(params := Carried(f.function_.params, e.function_.params)), false)
    else if !e.isPrototype && f.isPrototype then
      e.(function_ := e.function_.(params := Carried(e.function_.params, f.function_.params)))
    else e
  }

  function FunctionJoin(): Join<Lowered> {
    Join((f: Lowered) => f.function_.usr, MergedFunction, true)
  }

  function BareFunction(f: Lowered): Lowered {
    f.(function_ := f.function_.(params := Bare(f.function_.params)))
  }

  function PrototypeKind(): Kind<Lowered, string> {
    Kind((f: Lowered) => f.function_.usr, (f: Lowered) => !f.isPrototype)
  }

  // ----- methods, constructors, records -----

  function MergedMethod(e: Method, m: Method): Method {
    if e.body.None? && m.body.Some? then m.(params := Carried(m.params, e.params))
    else if e.body.Some? && m.body.None? then e.(params := Carried(e.params, m.params))
    else e
  }

  function MethodJoin(): Join<Method> {
    Join((m: Method) => m.usr, MergedMethod, true)
  }

  function BareMethod(m: Method): Method {
    m.(params := Bare(m.params))
  }

  function BodyKind(): Kind<Method, string> {
    Kind((m: Method) => m.usr, (m: Method) => m.body.Some?)
  }

  function MergedConstructor(e: Constructor, c: Constructor): Constructor {
    e.(params := Carried(e.params, c.params))
  }

  function ConstructorJoin(): Join<Constructor> {
    Join((c: Constructor) => c.usr, MergedConstructor, false)
  }

  function MergedRecord(e: Record, r: Record): Record {
    e.(methods := Fold(MethodJoin(), e.methods, r.methods),
       constructors := Fold(ConstructorJoin(), e.constructors, r.constructors),
       destructor := if e.destructor.None? then r.destructor else e.destructor)
  }

  function RecordJoin(): Join<Record> {
    Join((r: Record) => r.usr, MergedRecord, true)
  }

  // ----- what a partial knows -----

  datatype Partial = Partial(functions: seq<Lowered>, records: seq<Record>)

  datatype Fact =
    | IsFunction(usr: string)
    | FunctionDefined(usr: string)
    | IsRecord(usr: string)
    | HasMethod(record: string, usr: string)
    | MethodDefined(record: string, usr: string)
    | HasConstructor(record: string, usr: string)
    | Destroys(record: string)

  function FunctionFacts(f: Lowered): set<Fact> {
    {IsFunction(f.function_.usr)} + if f.isPrototype then {} else {FunctionDefined(f.function_.usr)}
  }

  function MethodFacts(record: string): Method -> set<Fact> {
    (m: Method) => {HasMethod(record, m.usr)} + if m.body.None? then {} else {MethodDefined(record, m.usr)}
  }

  function ConstructorFacts(record: string): Constructor -> set<Fact> {
    (c: Constructor) => {HasConstructor(record, c.usr)}
  }

  ghost function RecordFacts(r: Record): set<Fact> {
    {IsRecord(r.usr)} + FactsOf(MethodFacts(r.usr), r.methods) + FactsOf(ConstructorFacts(r.usr), r.constructors)
    + if r.destructor.None? then {} else {Destroys(r.usr)}
  }

  ghost function PartialFacts(p: Partial): set<Fact> {
    FactsOf(FunctionFacts, p.functions) + FactsOf(r => RecordFacts(r), p.records)
  }

  function Functions(ps: seq<Partial>): seq<seq<Lowered>> {
    if ps == [] then [] else [ps[0].functions] + Functions(ps[1..])
  }

  function Records(ps: seq<Partial>): seq<seq<Record>> {
    if ps == [] then [] else [ps[0].records] + Records(ps[1..])
  }

  function Merged(ps: seq<Partial>): Partial {
    Partial(Fold(FunctionJoin(), [], Flatten(Functions(ps))), Fold(RecordJoin(), [], Flatten(Records(ps))))
  }

  lemma MethodsUnion(record: string, e: seq<Method>, r: seq<Method>)
    ensures FactsOf(MethodFacts(record), Fold(MethodJoin(), e, r))
        == FactsOf(MethodFacts(record), e) + FactsOf(MethodFacts(record), r)
  {
    assert Unions(MethodJoin(), MethodFacts(record));
    FoldFacts(MethodJoin(), MethodFacts(record), e, r);
  }

  lemma ConstructorsUnion(record: string, e: seq<Constructor>, r: seq<Constructor>)
    ensures FactsOf(ConstructorFacts(record), Fold(ConstructorJoin(), e, r))
         == FactsOf(ConstructorFacts(record), e) + FactsOf(ConstructorFacts(record), r)
  {
    assert Unions(ConstructorJoin(), ConstructorFacts(record));
    FoldFacts(ConstructorJoin(), ConstructorFacts(record), e, r);
  }

  lemma RecordsUnion(e: Record, r: Record)
    requires e.usr == r.usr
    ensures RecordFacts(MergedRecord(e, r)) == RecordFacts(e) + RecordFacts(r)
  {
    MethodsUnion(e.usr, e.methods, r.methods);
    ConstructorsUnion(e.usr, e.constructors, r.constructors);
    var m := MergedRecord(e, r);
    assert m.methods == Fold(MethodJoin(), e.methods, r.methods)
        && m.constructors == Fold(ConstructorJoin(), e.constructors, r.constructors);
  }

  lemma {:induction false} FlattenFacts(ps: seq<Partial>)
    ensures FactsOf(FunctionFacts, Flatten(Functions(ps))) + FactsOf(r => RecordFacts(r), Flatten(Records(ps)))
         == FactsOf(p => PartialFacts(p), ps)
    decreases |ps|
  {
    if ps != [] {
      FlattenFacts(ps[1..]);
      assert Functions(ps)[1..] == Functions(ps[1..]) && Records(ps)[1..] == Records(ps[1..]);
      FactsOfAppend(FunctionFacts, ps[0].functions, Flatten(Functions(ps[1..])));
      FactsOfAppend(r => RecordFacts(r), ps[0].records, Flatten(Records(ps[1..])));
      FactsOfCons(p => PartialFacts(p), ps);
    }
  }

  /** The merged catalog knows what the partials know together, no more and no less: every
      function, record, method and constructor any of them lists, and a body exactly where
      some partial has one. */
  lemma MergeIsUnion(ps: seq<Partial>)
    ensures PartialFacts(Merged(ps)) == FactsOf(p => PartialFacts(p), ps)
  {
    assert Unions(FunctionJoin(), FunctionFacts);
    FoldFacts(FunctionJoin(), FunctionFacts, [], Flatten(Functions(ps)));
    forall e: Record, r: Record | e.usr == r.usr
        ensures RecordFacts(MergedRecord(e, r)) == RecordFacts(e) + RecordFacts(r) {
      RecordsUnion(e, r);
    }
    assert Unions(RecordJoin(), r => RecordFacts(r));
    FoldFacts(RecordJoin(), r => RecordFacts(r), [], Flatten(Records(ps)));
    FlattenFacts(ps);
  }

  /** So it does not depend on the schedule: any order of the same partials gives the same facts. */
  lemma ScheduleIndependent(ps: seq<Partial>, qs: seq<Partial>)
    requires multiset(ps) == multiset(qs)
    ensures PartialFacts(Merged(ps)) == PartialFacts(Merged(qs))
  {
    MergeIsUnion(ps);
    MergeIsUnion(qs);
    forall p ensures p in ps <==> p in qs {
      assert p in multiset(ps) <==> p in multiset(qs);
    }
  }

  /** Every usr once, at both levels. */
  ghost predicate MembersOnce(r: Record) {
    OnePerId(MethodJoin(), r.methods) && OnePerId(ConstructorJoin(), r.constructors)
  }

  ghost predicate Each<T>(p: T -> bool, xs: seq<T>) {
    forall i | 0 <= i < |xs| :: p(xs[i])
  }

  lemma {:induction false} FoldKeeps<T(!new)>(j: Join<T>, p: T -> bool, acc: seq<T>, xs: seq<T>)
    requires forall a, b | p(a) && p(b) :: p(j.merge(a, b))
    requires Each(p, acc) && Each(p, xs)
    ensures Each(p, Fold(j, acc, xs))
    decreases |xs|
  {
    if xs != [] {
      assert p(xs[0]);
      FoldKeeps(j, p, Absorb(j, acc, xs[0]), xs[1..]);
    }
  }

  lemma MergeKeepsMembersOnce(e: Record, r: Record)
    requires MembersOnce(e)
    ensures MembersOnce(MergedRecord(e, r))
  {
    FoldOnePerId(MethodJoin(), e.methods, r.methods);
    FoldOnePerId(ConstructorJoin(), e.constructors, r.constructors);
    var m := MergedRecord(e, r);
    assert m.methods == Fold(MethodJoin(), e.methods, r.methods)
        && m.constructors == Fold(ConstructorJoin(), e.constructors, r.constructors);
  }

  lemma EachUsrOnce(ps: seq<Partial>)
    requires Each(r => MembersOnce(r), Flatten(Records(ps)))
    ensures OnePerId(FunctionJoin(), Merged(ps).functions)
    ensures OnePerId(RecordJoin(), Merged(ps).records)
    ensures Each(r => MembersOnce(r), Merged(ps).records)
  {
    FoldOnePerId(FunctionJoin(), [], Flatten(Functions(ps)));
    FoldOnePerId(RecordJoin(), [], Flatten(Records(ps)));
    forall e, r | MembersOnce(e) && MembersOnce(r) ensures MembersOnce(RecordJoin().merge(e, r)) {
      MergeKeepsMembersOnce(e, r);
    }
    FoldKeeps(RecordJoin(), r => MembersOnce(r), [], Flatten(Records(ps)));
  }

  /** Default values aside, the merged functions are those a single prototype-to-definition pass
      keeps: the first definition of each usr, or failing any its first prototype. */
  lemma FirstDefinitionWins(ps: seq<Partial>)
    ensures Stripped(BareFunction, Merged(ps).functions)
        == Pass(PrototypeKind(), [], Stripped(BareFunction, Flatten(Functions(ps))))
  {
    forall a: Lowered, b: Lowered | a.function_.usr == b.function_.usr
      ensures BareFunction(MergedFunction(a, b))
           == if a.isPrototype && !b.isPrototype then BareFunction(b) else BareFunction(a)
    {
      BareCarried(a.function_.params, b.function_.params);
      BareCarried(b.function_.params, a.function_.params);
    }
    FoldSelects(FunctionJoin(), PrototypeKind(), BareFunction, [], Flatten(Functions(ps)));
  }

  /** The same of a record's methods, where a body makes the definition. */
  lemma FirstBodyWins(existing: seq<Method>, incoming: seq<Method>)
    requires OnePerId(MethodJoin(), existing)
    ensures Stripped(BareMethod, Fold(MethodJoin(), existing, incoming))
         == Pass(BodyKind(), Stripped(BareMethod, existing), Stripped(BareMethod, incoming))
  {
    forall a: Method, b: Method | a.usr == b.usr
      ensures BareMethod(MergedMethod(a, b)) == if a.body.None? && b.body.Some? then BareMethod(b) else BareMethod(a)
    {
      BareCarried(a.params, b.params);
      BareCarried(b.params, a.params);
    }
    FoldSelects(MethodJoin(), BodyKind(), BareMethod, existing, incoming);
  }

  /** A definition and a prototype share their defaults; two prototypes, or two definitions, do
      not: then the first one's are all that is kept. */
  lemma FunctionDefaults(e: Lowered, f: Lowered)
    requires |e.function_.params| == |f.function_.params|
    ensures var both, first := Slots(e.function_.params) + Slots(f.function_.params), Slots(e.function_.params);
            Slots(MergedFunction(e, f).function_.params) == if e.isPrototype != f.isPrototype then both else first
    ensures Slots(MergedFunction(e, f).function_.params) == Slots(MergedFunction(f, e).function_.params)
            <==> e.isPrototype != f.isPrototype || Slots(e.function_.params) == Slots(f.function_.params)
  {
    CarriedSlots(e.function_.params, f.function_.params);
    CarriedSlots(f.function_.params, e.function_.params);
  }

  /** The default of a slot: the definition's own, or else the prototype's; of two of a kind the
      first one's. */
  ghost predicate SharedDefaults(first: seq<Param>, second: seq<Param>, firstDefines: bool, secondDefines: bool,
                                 merged: seq<Param>) {
    forall i | 0 <= i < |first| && i < |second| && i < |merged| ::
      var a, b := first[i].defaultValue, second[i].defaultValue;
      merged[i].defaultValue
      == if firstDefines == secondDefines then a
         else if firstDefines then (if a.Some? then a else b) else if b.Some? then b else a
  }

  lemma DefaultsOfMembers(e: Lowered, f: Lowered, m: Method, n: Method, c: Constructor, d: Constructor)
    ensures SharedDefaults(e.function_.params, f.function_.params, !e.isPrototype, !f.isPrototype,
                           MergedFunction(e, f).function_.params)
    ensures SharedDefaults(m.params, n.params, m.body.Some?, n.body.Some?, MergedMethod(m, n).params)
    ensures forall i | 0 <= i < |c.params| && i < |d.params| ::
              MergedConstructor(c, d).params[i].defaultValue
              == if c.params[i].defaultValue.Some? then c.params[i].defaultValue else d.params[i].defaultValue
  {
  }

  lemma {:induction false} LocateLast<T>(j: Join<T>, acc: seq<T>, i: nat)
    requires j.newest && i < |acc| && forall n | i < n < |acc| :: j.id(acc[n]) != j.id(acc[i])
    ensures Locate(j, acc, j.id(acc[i])) == Some(i)
    decreases |acc|
  {
    if i < |acc| - 1 { LocateLast(j, acc[..|acc| - 1], i); }
  }

  lemma {:induction false} LocateFirst<T>(j: Join<T>, acc: seq<T>, i: nat)
    requires !j.newest && i < |acc| && forall n | 0 <= n < i :: j.id(acc[n]) != j.id(acc[i])
    ensures Locate(j, acc, j.id(acc[i])) == Some(i)
    decreases |acc|
  {
    if i > 0 { LocateFirst(j, acc[1..], i - 1); }
  }

  /** Should a usr occur twice already, the last method of it is merged with. */
  lemma LastMethodIsMerged(acc: seq<Method>, m: Method, i: nat)
    requires i < |acc| && acc[i].usr == m.usr && forall n | i < n < |acc| :: acc[n].usr != m.usr
    ensures Absorb(MethodJoin(), acc, m) == acc[i := MergedMethod(acc[i], m)]
  {
    LocateLast(MethodJoin(), acc, i);
  }

  /** But the first constructor. */
  lemma FirstConstructorIsMerged(acc: seq<Constructor>, c: Constructor, i: nat)
    requires i < |acc| && acc[i].usr == c.usr && forall n | 0 <= n < i :: acc[n].usr != c.usr
    ensures Absorb(ConstructorJoin(), acc, c) == acc[i := MergedConstructor(acc[i], c)]
  {
    LocateFirst(ConstructorJoin(), acc, i);
  }

  // ----- the rest of a record -----

  /** The record without its members. */
  function Shell(r: Record): Record {
    RecordDecl(r.name, r.usr, r.namespace, r.fields, r.staticFields, [], [], r.baseClass, r.mixins, None, r.origin)
  }

  function FirstKind(): Kind<Record, string> {
    Kind((r: Record) => r.usr, (r: Record) => false)
  }

  /** Name, namespace, fields and bases are those of the first record of each usr. */
  lemma FirstRecordWins(ps: seq<Partial>)
    ensures Stripped(Shell, Merged(ps).records) == Pass(FirstKind(), [], Stripped(Shell, Flatten(Records(ps))))
  {
    FoldSelects(RecordJoin(), FirstKind(), Shell, [], Flatten(Records(ps)));
  }

  /** The usr and the destructor alone. */
  function Teardown(r: Record): Record {
    RecordDecl("", r.usr, "", [], [], [], [], None, [], r.destructor, Origin("", 0, 0))
  }

  function TeardownKind(): Kind<Record, string> {
    Kind((r: Record) => r.usr, (r: Record) => r.destructor.Some?)
  }

  /** And its destructor is the first that any record of the usr has. */
  lemma FirstDestructorWins(ps: seq<Partial>)
    ensures Stripped(Teardown, Merged(ps).records)
         == Pass(TeardownKind(), [], Stripped(Teardown, Flatten(Records(ps))))
  {
    FoldSelects(RecordJoin(), TeardownKind(), Teardown, [], Flatten(Records(ps)));
  }

  function BareConstructor(c: Constructor): Constructor {
    c.(params := Bare(c.params))
  }

  function FirstConstructorKind(): Kind<Constructor, string> {
    Kind((c: Constructor) => c.usr, (c: Constructor) => false)
  }

  /** Defaults aside, of the constructors of a usr the first is kept. */
  lemma FirstConstructorWins(existing: seq<Constructor>, incoming: seq<Constructor>)
    requires OnePerId(ConstructorJoin(), existing)
    ensures Stripped(BareConstructor, Fold(ConstructorJoin(), existing, incoming))
         == Pass(FirstConstructorKind(), Stripped(BareConstructor, existing), Stripped(BareConstructor, incoming))
  {
    forall a: Constructor, b: Constructor ensures BareConstructor(MergedConstructor(a, b)) == BareConstructor(a) {
      BareCarried(a.params, b.params);
    }
    FoldSelects(ConstructorJoin(), FirstConstructorKind(), BareConstructor, existing, incoming);
  }

  lemma EveryMergeGrows()
    ensures KeepsId(FunctionJoin()) && Grows(FunctionJoin(), (f: Lowered) => f.function_.params)
    ensures KeepsId(MethodJoin()) && Grows(MethodJoin(), (m: Method) => m.params)
    ensures KeepsId(ConstructorJoin()) && Grows(ConstructorJoin(), (c: Constructor) => c.params)
  {
  }

  // ----- the loops -----

  /** The map knows where each identity is found. */
  ghost predicate Tracks<T>(j: Join<T>, acc: seq<T>, index: map<string, nat>) {
    forall k :: Locate(j, acc, k) == if k in index then Some(index[k]) else None
  }

  lemma LocateAppended<T>(j: Join<T>, acc: seq<T>, x: T, k: string)
    requires j.newest
    ensures Locate(j, acc + [x], k) == if k == j.id(x) then Some(|acc|) else Locate(j, acc, k)
  {
    assert (acc + [x])[..|acc|] == acc;
  }

  lemma {:induction false} LocateReplaced<T>(j: Join<T>, acc: seq<T>, i: nat, y: T, k: string)
    requires i < |acc| && j.id(y) == j.id(acc[i]) && j.newest
    ensures Locate(j, acc[i := y], k) == Locate(j, acc, k)
    decreases |acc|
  {
    var last := |acc| - 1;
    if i < last {
      assert acc[i := y][..last] == acc[..last][i := y];
      LocateReplaced(j, acc[..last], i, y, k);
    } else {
      assert acc[i := y][..last] == acc[..last];
    }
  }

  lemma TracksAppended<T>(j: Join<T>, acc: seq<T>, index: map<string, nat>, x: T)
    requires j.newest && Tracks(j, acc, index)
    ensures Tracks(j, acc + [x], index[j.id(x) := |acc|])
  {
    forall k { LocateAppended(j, acc, x, k); }
  }

  lemma TracksReplaced<T>(j: Join<T>, acc: seq<T>, index: map<string, nat>, i: nat, y: T)
    requires j.newest && Tracks(j, acc, index) && i < |acc| && j.id(y) == j.id(acc[i])
    ensures Tracks(j, acc[i := y], index)
  {
    forall k { LocateReplaced(j, acc, i, y, k); }
  }

  /** One turn of a merging loop. */
  lemma FoldStep<T>(j: Join<T>, acc: seq<T>, index: map<string, nat>, xs: seq<T>, i: nat)
    requires j.newest && Tracks(j, acc, index) && i < |xs|
    ensures Fold(j, acc, xs[i..]) == Fold(j, Absorb(j, acc, xs[i]), xs[i + 1..])
    ensures var k := j.id(xs[i]);
            if k in index
            then index[k] < |acc| && j.id(acc[index[k]]) == k
                && Absorb(j, acc, xs[i]) == acc[index[k] := j.merge(acc[index[k]], xs[i])]
            else Absorb(j, acc, xs[i]) == acc + [xs[i]]
  {
    assert xs[i..][0] == xs[i] && xs[i..][1..] == xs[i + 1..];
    assert Locate(j, acc, j.id(xs[i])) == if j.id(xs[i]) in index then Some(index[j.id(xs[i])]) else None;
  }

  method MergeMethod(existing: Method, incoming: Method) returns (merged: Method)
    ensures merged == MergedMethod(existing, incoming)
  {
    merged := existing;
    if existing.body.None? && incoming.body.Some? {
      var params := CarryDefaults(incoming.params, existing.params);
      merged := incoming.(params := params);
    } else if existing.body.Some? && incoming.body.None? {
      var params := CarryDefaults(existing.params, incoming.params);
      merged := existing.(params := params);
    }
  }

  method IndexByUsr(methods: seq<Method>) returns (index: map<string, nat>)
    ensures Tracks(MethodJoin(), methods, index)
  {
    index := map[];
    for i := 0 to |methods|
      invariant Tracks(MethodJoin(), methods[..i], index)
    {
      TracksAppended(MethodJoin(), methods[..i], index, methods[i]);
      assert methods[..i + 1] == methods[..i] + [methods[i]];
      index := index[methods[i].usr := i];
    }
    assert methods[..|methods|] == methods;
  }

  method MergeMethods(existing: seq<Method>, incoming: seq<Method>) returns (merged: seq<Method>)
    ensures merged == Fold(MethodJoin(), existing, incoming)
  {
    ghost var j := MethodJoin();
    merged := existing;
    var index: map<string, nat> := IndexByUsr(existing);
    for i := 0 to |incoming|
      invariant Tracks(j, merged, index)
      invariant Fold(j, merged, incoming[i..]) == Fold(j, existing, incoming)
    {
      var m := incoming[i];
      FoldStep(j, merged, index, incoming, i);
      if m.usr !in index {
        TracksAppended(j, merged, index, m);
        index := index[m.usr := |merged|];
        merged := merged + [m];
      } else {
        var at := index[m.usr];
        TracksReplaced(j, merged, index, at, MergedMethod(merged[at], m));
        var joined := MergeMethod(merged[at], m);
        merged := merged[at := joined];
      }
    }
    assert incoming[|incoming|..] == [];
  }

  method MergeConstructors(existing: seq<Constructor>, incoming: seq<Constructor>) returns (merged: seq<Constructor>)
    ensures merged == Fold(ConstructorJoin(), existing, incoming)
  {
    merged := existing;
    for i := 0 to |incoming|
      invariant Fold(ConstructorJoin(), merged, incoming[i..]) == Fold(ConstructorJoin(), existing, incoming)
    {
      var c := incoming[i];
      assert incoming[i..][0] == c && incoming[i..][1..] == incoming[i + 1..];
      match Locate(ConstructorJoin(), merged, c.usr)
      case None =>
        merged := merged + [c];
      case Some(at) =>
        var params := CarryDefaults(merged[at].params, c.params);
        merged := merged[at := merged[at].(params := params)];
    }
    assert incoming[|incoming|..] == [];
  }

  method MergeRecord(existing: Record, incoming: Record) returns (merged: Record)
    ensures merged == MergedRecord(existing, incoming)
  {
    var methods := MergeMethods(existing.methods, incoming.methods);
    var constructors := MergeConstructors(existing.constructors, incoming.constructors);
    merged := existing.(methods := methods, constructors := constructors);
    if existing.destructor.None? && incoming.destructor.Some? {
      merged := merged.(destructor := incoming.destructor);
    }
  }

  method MergeRecords(partials: seq<seq<Record>>) returns (merged: seq<Record>)
    ensures merged == Fold(RecordJoin(), [], Flatten(partials))
  {
    ghost var j := RecordJoin();
    merged := [];
    var index: map<string, nat> := map[];
    for p := 0 to |partials|
      invariant Tracks(j, merged, index)
      invariant Fold(j, merged, Flatten(partials[p..])) == Fold(j, [], Flatten(partials))
    {
      var partial := partials[p];
      assert partials[p..][0] == partial && partials[p..][1..] == partials[p + 1..];
      FoldAppend(j, merged, partial, Flatten(partials[p + 1..]));
      for i := 0 to |partial|
        invariant Tracks(j, merged, index)
        invariant Fold(j, Fold(j, merged, partial[i..]), Flatten(partials[p + 1..])) == Fold(j, [], Flatten(partials))
      {
        var r := partial[i];
        FoldStep(j, merged, index, partial, i);
        if r.usr !in index {
          TracksAppended(j, merged, index, r);
          index := index[r.usr := |merged|];
          merged := merged + [r];
        } else {
          var at := index[r.usr];
          TracksReplaced(j, merged, index, at, MergedRecord(merged[at], r));
          var joined := MergeRecord(merged[at], r);
          merged := merged[at := joined];
        }
      }
      assert partial[|partial|..] == [];
    }
    assert partials[|partials|..] == [];
  }

  /** The prototype flag of each accepted function lives in a map beside the list. */
  ghost predicate FlagsAgree(entries: seq<Lowered>, functions: seq<Function>, prototype: map<string, bool>) {
    |entries| == |functions|
    && forall i | 0 <= i < |entries| ::
         entries[i].function_ == functions[i] && functions[i].usr in prototype
             && prototype[functions[i].usr] == entries[i].isPrototype
  }

  /** One function met again: whichever is the definition stays, with the defaults of both. */
  method MergeFunction(existing: Function, wasPrototype: bool, incoming: Function, isPrototype: bool)
      returns (merged: Function, prototype: bool)
    ensures Lowered(merged, prototype) == MergedFunction(Lowered(existing, wasPrototype),
                                                         Lowered(incoming, isPrototype))
  {
    merged, prototype := existing, wasPrototype;
    if wasPrototype && !isPrototype {
      var params := CarryDefaults(incoming.params, existing.params);
      merged, prototype := incoming.(params := params), false;
    } else if !wasPrototype && isPrototype {
      var params := CarryDefaults(existing.params, incoming.params);
      merged := existing.(params := params);
    }
  }

  method MergeFunctions(lowered: seq<Lowered>) returns (functions: seq<Function>)
    ensures |functions| == |Fold(FunctionJoin(), [], lowered)|
    ensures forall i | 0 <= i < |functions| :: functions[i] == Fold(FunctionJoin(), [], lowered)[i].function_
  {
    ghost var j := FunctionJoin();
    ghost var entries: seq<Lowered> := [];
    functions := [];
    var index: map<string, nat> := map[];
    var prototype: map<string, bool> := map[];
    for i := 0 to |lowered|
      invariant Tracks(j, entries, index) && OnePerId(j, entries) && FlagsAgree(entries, functions, prototype)
      invariant Fold(j, entries, lowered[i..]) == Fold(j, [], lowered)
    {
      var f, isPrototype := lowered[i].function_, lowered[i].isPrototype;
      FoldStep(j, entries, index, lowered, i);
      if f.usr !in index {
        TracksAppended(j, entries, index, lowered[i]);
        index := index[f.usr := |functions|];
        prototype := prototype[f.usr := isPrototype];
        functions := functions + [f];
        entries := entries + [lowered[i]];
      } else {
        var at := index[f.usr];
        var merged, stillPrototype := MergeFunction(functions[at], prototype[f.usr], f, isPrototype);
        ghost var entry := Lowered(merged, stillPrototype);
        assert entry == MergedFunction(entries[at], lowered[i]);
        TracksReplaced(j, entries, index, at, entry);
        FlagsReplaced(entries, functions, prototype, at, entry);
        functions := functions[at := merged];
        prototype := prototype[f.usr := stillPrototype];
        entries := entries[at := entry];
      }
    }
    assert lowered[|lowered|..] == [];
  }

  lemma FlagsReplaced(entries: seq<Lowered>, functions: seq<Function>, prototype: map<string, bool>, at: nat,
                      entry: Lowered)
    requires OnePerId(FunctionJoin(), entries) && FlagsAgree(entries, functions, prototype)
    requires at < |entries| && entry.function_.usr == entries[at].function_.usr
    ensures FlagsAgree(entries[at := entry], functions[at := entry.function_],
                       prototype[entry.function_.usr := entry.isPrototype])
  {
    forall i | 0 <= i < |entries| && i != at ensures entries[i].function_.usr != entry.function_.usr {
      assert FunctionJoin().id(entries[i]) == entries[i].function_.usr
          && FunctionJoin().id(entries[at]) == entry.function_.usr;
    }
  }
}
