/**
 The names overloads get, decision by decision: who is renamed, to what, and
 which operator stays native, said of the list of declarations itself.
 */
module OverloadNames {
  import opened Wrappers
  import opened Ir
  import opened Strings
  import opened Overloads

  // ----- what the decision looks at -----

  /** Same owner and name, callable or not. */
  predicate Namesake(d: Declaration, e: Declaration) {
    e.owningClassUsr == d.owningClassUsr && e.name == d.name
  }

  predicate Rival(d: Declaration, e: Declaration) {
    Namesake(d, e) && e.isFreeOrMethod
  }

  ghost predicate Overloaded(f: Facts, d: Declaration) {
    exists e | e in f.all :: Rival(d, e) && e != d
  }

  /** A static and an instance member of one name. */
  ghost predicate Mixed(f: Facts, d: Declaration) {
    && !(|d.name| > 8 && d.name[..8] == "operator")
    && (exists e | e in f.all :: Namesake(d, e) && e.isStatic)
    && (exists e | e in f.all :: Namesake(d, e) && !e.isStatic)
  }

  /** Exactly two of the name, with equal parameters, one of them const. */
  ghost predicate PairAt(n: Naming, f: Facts, d: Declaration, i: int, j: int) {
    && 0 <= i < j < |f.all| && Namesake(d, f.all[i]) && Namesake(d, f.all[j])
    && (forall k | 0 <= k < |f.all| && k != i && k != j :: !Namesake(d, f.all[k]))
    && n.parameterList(f.all[i].signature) == n.parameterList(f.all[j].signature)
    && n.isConst(f.all[i].signature) != n.isConst(f.all[j].signature)
  }

  ghost predicate OnlyPair(n: Naming, f: Facts, d: Declaration) {
    exists i, j :: PairAt(n, f, d, i, j)
  }

  predicate IsOperator(d: Declaration) {
    |d.name| >= 8 && d.name[..8] == "operator"
  }

  // ----- spellings -----

  function Joined(pieces: seq<string>): string {
    if pieces == [] then "" else pieces[0] + Joined(pieces[1..])
  }

  /** `s` is one suffix for each parameter, in order. */
  ghost predicate Suffixes(n: Naming, params: seq<Param>, s: string) {
    exists pieces: seq<string> :: Pieces(n, params, pieces) && s == Joined(pieces)
  }

  ghost predicate Pieces(n: Naming, params: seq<Param>, pieces: seq<string>) {
    |pieces| == |params| && forall i | 0 <= i < |params| :: pieces[i] == n.suffix(params[i].ty)
  }

  function OwnParams(f: Facts, d: Declaration): seq<Param> {
    if d.usr in f.methodParams then f.methodParams[d.usr] else []
  }

  ghost predicate TypeSpelled(n: Naming, f: Facts, d: Declaration, s: string) {
    if d.usr in f.functionParams then WithTypes(n, d, f.functionParams[d.usr], s)
    else if d.usr in f.methodParams then WithTypes(n, d, f.methodParams[d.usr], s)
    else s == d.name
  }

  /** The name, a suffix for each parameter, and `Const` for a const signature. */
  ghost predicate WithTypes(n: Naming, d: Declaration, params: seq<Param>, s: string) {
    exists t :: Suffixes(n, params, t) && s == d.name + t + if n.isConst(d.signature) then "Const" else ""
  }

  /** An operator of the same class, name and arity. */
  ghost predicate Competes(f: Facts, d: Declaration, e: Declaration) {
    Rival(d, e) && |OwnParams(f, e)| == |OwnParams(f, d)|
  }

  ghost predicate OwnerAt(f: Facts, d: Declaration, k: int) {
    && 0 <= k < |f.records| && d.owningClassUsr == Some(f.records[k].usr)
    && forall j | 0 <= j < k :: f.records[j].usr != f.records[k].usr
  }

  /** The first parameter of `e` is of the class `d` belongs to. */
  ghost predicate Takes(n: Naming, f: Facts, d: Declaration, e: Declaration) {
    && OwnParams(f, e) != []
    && exists k :: OwnerAt(f, d, k)
                   && n.sameRecord(OwnParams(f, e)[0].ty, Type.Record(f.records[k].usr, f.records[k].name))
  }

  /** Of the competing operators `d` is the first that takes its class, or the first where none does. */
  ghost predicate StaysNative(n: Naming, f: Facts, d: Declaration) {
    if exists e | e in f.all :: Competes(f, d, e) && Takes(n, f, d, e)
    then exists i | 0 <= i < |f.all| :: f.all[i] == d && FirstTaker(n, f, d, i)
    else exists i | 0 <= i < |f.all| :: f.all[i] == d && forall j | 0 <= j < i :: !Competes(f, d, f.all[j])
  }

  ghost predicate FirstTaker(n: Naming, f: Facts, d: Declaration, i: nat)
    requires i < |f.all|
  {
    && Competes(f, d, f.all[i]) && Takes(n, f, d, f.all[i])
    && forall j | 0 <= j < i :: !(Competes(f, d, f.all[j]) && Takes(n, f, d, f.all[j]))
  }

  ghost predicate OperatorSpelled(n: Naming, f: Facts, d: Declaration, s: string) {
    if d.owningClassUsr.Some? then
      var params := OwnParams(f, d);
      if n.isDirect(d.name, |params|) && StaysNative(n, f, d) then s == d.name
      else exists t :: Suffixes(n, params, t) && s == n.bridge(d.name, |params|) + t
    else if d.usr in f.functionParams then
      var params := f.functionParams[d.usr];
      exists t :: Suffixes(n, params, t) && s == n.bridge(d.name, |params|) + t
    else s == d.name
  }

  /** The name a declaration gets before ordinals. */
  ghost predicate SignatureName(n: Naming, f: Facts, d: Declaration, s: string) {
    if !Overloaded(f, d) then s == d.name
    else if Mixed(f, d) then s == if d.isStatic then d.name + "Static" else d.name
    else if IsOperator(d) then OperatorSpelled(n, f, d, s)
    else if OnlyPair(n, f, d) then s == d.name
    else TypeSpelled(n, f, d, s)
  }

  // ----- suffixes -----

  lemma {:induction false} OneSpelling(n: Naming, params: seq<Param>, s: string, t: string)
    requires Suffixes(n, params, s) && Suffixes(n, params, t)
    ensures s == t
  {
    var p: seq<string> :| Pieces(n, params, p) && s == Joined(p);
    var q: seq<string> :| Pieces(n, params, q) && t == Joined(q);
    assert p == q;
  }

  lemma {:induction false} Suffixed(n: Naming, base: string, params: seq<Param>) returns (t: string)
    ensures Suffixes(n, params, t) && OverloadName(n, base, params) == base + t
    decreases |params|
  {
    if params == [] {
      t := "";
      var none: seq<string> := [];
      assert Joined(none) == t && Pieces(n, params, none);
      assert base + t == base;
    } else {
      var first := n.suffix(params[0].ty);
      var rest := Suffixed(n, base + first, params[1..]);
      var pieces: seq<string> :| Pieces(n, params[1..], pieces) && rest == Joined(pieces);
      t := first + rest;
      assert ([first] + pieces)[1..] == pieces;
      assert Joined([first] + pieces) == t && Pieces(n, params, [first] + pieces);
      assert base + first + rest == base + t;
    }
  }

  // ----- groups and buckets by position -----

  lemma GroupStep(all: seq<Declaration>, owner: Option<string>, name: string)
    requires all != []
    ensures Group(all, owner, name)
         == (if all[0].isFreeOrMethod && all[0].owningClassUsr == owner && all[0].name == name then [all[0]] else [])
            + Group(all[1..], owner, name)
  {
    var d, cs := all[0], Callables(all[1..]);
    assert Callables(all) == (if d.isFreeOrMethod then [d] else []) + cs;
    if d.isFreeOrMethod {
      assert ([d] + cs)[1..] == cs;
      assert [d] + cs == Callables(all);
    } else {
      assert [] + cs == cs;
    }
  }

  ghost function Bucket(f: Facts, all: seq<Declaration>, d: Declaration): seq<Declaration> {
    OfArity(f, Group(all, d.owningClassUsr, d.name), MethodArity(f, d))
  }

  lemma BucketStep(f: Facts, all: seq<Declaration>, d: Declaration)
    requires all != []
    ensures Bucket(f, all, d) == (if Competes(f, d, all[0]) then [all[0]] else []) + Bucket(f, all[1..], d)
  {
    GroupStep(all, d.owningClassUsr, d.name);
    var rest := Group(all[1..], d.owningClassUsr, d.name);
    if Rival(d, all[0]) {
      assert ([all[0]] + rest)[1..] == rest;
    } else {
      assert [] + rest == rest;
    }
    assert [] + Bucket(f, all[1..], d) == Bucket(f, all[1..], d);
  }

  /** The head of a bucket is its first member in the list. */
  lemma {:induction false} BucketHead(f: Facts, all: seq<Declaration>, d: Declaration) returns (i: nat)
    requires Bucket(f, all, d) != []
    ensures i < |all| && all[i] == Bucket(f, all, d)[0] && Competes(f, d, all[i])
    ensures forall j | 0 <= j < i :: !Competes(f, d, all[j])
    decreases |all|
  {
    BucketStep(f, all, d);
    if Competes(f, d, all[0]) {
      i := 0;
    } else {
      var k := BucketHead(f, all[1..], d);
      i := k + 1;
    }
  }

  lemma {:induction false} BucketMembers(f: Facts, all: seq<Declaration>, d: Declaration)
    ensures forall e :: e in Bucket(f, all, d) <==> e in all && Competes(f, d, e)
    decreases |all|
  {
    if all != [] {
      BucketStep(f, all, d);
      BucketMembers(f, all[1..], d);
      assert all == [all[0]] + all[1..];
    }
  }

  lemma {:induction false} TakerHead(n: Naming, f: Facts, all: seq<Declaration>, d: Declaration, owner: Record)
      returns (i: nat)
    ensures var first := FirstTaking(n, f, owner, Bucket(f, all, d));
            if first.None? then forall j | 0 <= j < |all| && Competes(f, d, all[j]) :: !TakesOwner(n, f, owner, all[j])
            else && i < |all| && all[i] == first.value && Competes(f, d, all[i]) && TakesOwner(n, f, owner, all[i])
                 && forall j | 0 <= j < i && Competes(f, d, all[j]) :: !TakesOwner(n, f, owner, all[j])
    decreases |all|
  {
    i := 0;
    if all != [] {
      BucketStep(f, all, d);
      var bucket, rest := Bucket(f, all, d), Bucket(f, all[1..], d);
      if Competes(f, d, all[0]) { assert bucket[0] == all[0] && bucket[1..] == rest; } else { assert bucket == rest; }
      if !(Competes(f, d, all[0]) && TakesOwner(n, f, owner, all[0])) {
        var k := TakerHead(n, f, all[1..], d, owner);
        i := k + 1;
        forall j | 0 <= j < |all| && Competes(f, d, all[j]) && (FirstTaking(n, f, owner, bucket).Some? ==> j < i)
          ensures !TakesOwner(n, f, owner, all[j])
        {
          if j > 0 { assert all[1..][j - 1] == all[j]; }
        }
      }
    }
  }

  lemma {:induction false} FoundRecord(f: Facts, records: seq<Record>, usr: string)
    ensures var r := FindRecord(records, usr);
            if r.None? then forall k | 0 <= k < |records| :: records[k].usr != usr
            else exists k | 0 <= k < |records| :: records[k] == r.value && records[k].usr == usr
                                                  && forall j | 0 <= j < k :: records[j].usr != usr
    decreases |records|
  {
    if records != [] && records[0].usr != usr {
      FoundRecord(f, records[1..], usr);
      var r := FindRecord(records[1..], usr);
      if r.Some? {
        var k :| 0 <= k < |records[1..]| && records[1..][k] == r.value && records[1..][k].usr == usr
                 && forall j | 0 <= j < k :: records[1..][j].usr != usr;
        assert records[k + 1] == r.value;
        assert forall j | 0 < j < k + 1 :: records[j] == records[1..][j - 1];
      } else {
        assert forall j | 0 < j < |records| :: records[j] == records[1..][j - 1];
      }
    }
  }

  // ----- the decision by position -----

  function NamedLike(all: seq<Declaration>, d: Declaration): seq<Declaration> {
    Named(all, d.owningClassUsr, d.name)
  }

  lemma LikeStep(all: seq<Declaration>, d: Declaration)
    requires all != []
    ensures NamedLike(all, d) == (if Namesake(d, all[0]) then [all[0]] else []) + NamedLike(all[1..], d)
  {
    assert [] + NamedLike(all[1..], d) == NamedLike(all[1..], d);
  }

  ghost predicate NoneLike(all: seq<Declaration>, d: Declaration) {
    forall k | 0 <= k < |all| :: !Namesake(d, all[k])
  }

  ghost predicate OneLike(all: seq<Declaration>, d: Declaration, i: int) {
    0 <= i < |all| && Namesake(d, all[i]) && forall k | 0 <= k < |all| && k != i :: !Namesake(d, all[k])
  }

  ghost predicate TwoLike(all: seq<Declaration>, d: Declaration, i: int, j: int) {
    && 0 <= i < j < |all| && Namesake(d, all[i]) && Namesake(d, all[j])
    && forall k | 0 <= k < |all| && k != i && k != j :: !Namesake(d, all[k])
  }

  lemma {:induction false} NoneIs(all: seq<Declaration>, d: Declaration)
    ensures NoneLike(all, d) <==> NamedLike(all, d) == []
    decreases |all|
  {
    if all != [] {
      LikeStep(all, d);
      NoneIs(all[1..], d);
      assert forall k | 0 < k < |all| :: all[k] == all[1..][k - 1];
    }
  }

  lemma {:induction false} OneOf(all: seq<Declaration>, d: Declaration) returns (i: int)
    requires |NamedLike(all, d)| == 1
    ensures OneLike(all, d, i) && NamedLike(all, d) == [all[i]]
    decreases |all|
  {
    LikeStep(all, d);
    assert forall k | 0 < k < |all| :: all[k] == all[1..][k - 1];
    if Namesake(d, all[0]) {
      NoneIs(all[1..], d);
      i := 0;
    } else {
      i := OneOf(all[1..], d);
      i := i + 1;
    }
  }

  lemma {:induction false} OneIs(all: seq<Declaration>, d: Declaration, i: int)
    requires OneLike(all, d, i)
    ensures NamedLike(all, d) == [all[i]]
    decreases |all|
  {
    LikeStep(all, d);
    if i == 0 { NoneIs(all[1..], d); } else { OneIs(all[1..], d, i - 1); }
  }

  lemma {:induction false} TwoOf(all: seq<Declaration>, d: Declaration) returns (i: int, j: int)
    requires |NamedLike(all, d)| == 2
    ensures TwoLike(all, d, i, j) && NamedLike(all, d) == [all[i], all[j]]
    decreases |all|
  {
    LikeStep(all, d);
    assert forall k | 0 < k < |all| :: all[k] == all[1..][k - 1];
    if Namesake(d, all[0]) {
      j := OneOf(all[1..], d);
      i, j := 0, j + 1;
    } else {
      i, j := TwoOf(all[1..], d);
      i, j := i + 1, j + 1;
    }
  }

  lemma {:induction false} TwoIs(all: seq<Declaration>, d: Declaration, i: int, j: int)
    requires TwoLike(all, d, i, j)
    ensures NamedLike(all, d) == [all[i], all[j]]
    decreases |all|
  {
    LikeStep(all, d);
    if i == 0 { OneIs(all[1..], d, j - 1); } else { TwoIs(all[1..], d, i - 1, j - 1); }
  }

  lemma PairIs(n: Naming, f: Facts, d: Declaration)
    ensures OnlyPair(n, f, d) <==> ConstPair(n, NamedLike(f.all, d))
  {
    if ConstPair(n, NamedLike(f.all, d)) {
      var i, j := TwoOf(f.all, d);
      assert PairAt(n, f, d, i, j);
    }
    if OnlyPair(n, f, d) {
      var i, j :| PairAt(n, f, d, i, j);
      TwoIs(f.all, d, i, j);
    }
  }

  lemma MixedIs(n: Naming, f: Facts, d: Declaration)
    ensures Mixed(f, d) <==> Decide(n, f.all, d.owningClassUsr, d.name) == StaticVersusInstance
  {
    var group := NamedLike(f.all, d);
    NamedMembers(f.all, d.owningClassUsr, d.name);
    if MixesStatic(group) {
      var a :| a in group && a.isStatic;
      var b :| b in group && !b.isStatic;
      assert |group| > 1;
    }
  }

  lemma OverloadedIs(f: Facts, d: Declaration)
    requires EachOnce(f.all) && d in f.all && d.isFreeOrMethod
    ensures d in Group(f.all, d.owningClassUsr, d.name)
    ensures Overloaded(f, d) <==> |Group(f.all, d.owningClassUsr, d.name)| > 1
  {
    var group := Group(f.all, d.owningClassUsr, d.name);
    GroupMembers(f.all, d.owningClassUsr, d.name);
    GroupIsGroup(f, KeyOf(d));
    if |group| > 1 {
      var e := if group[0] == d then group[1] else group[0];
      assert group[0].usr != group[1].usr;
      assert e in group;
      assert Rival(d, e) && e != d;
    }
  }

  ghost function Values<T(!new), V>(value: T -> V, xs: seq<T>): set<V> {
    set x | x in xs :: value(x)
  }

  lemma {:induction false} CountValues<T(!new), V>(value: T -> V, xs: seq<T>)
    ensures |Values(value, xs)| <= |xs|
    ensures |Values(value, xs)| == |xs| <==> forall i, j | 0 <= i < j < |xs| :: value(xs[i]) != value(xs[j])
    decreases |xs|
  {
    if xs != [] {
      var front, last := xs[..|xs| - 1], xs[|xs| - 1];
      CountValues(value, front);
      assert xs == front + [last];
      if value(last) in Values(value, front) {
        assert Values(value, xs) == Values(value, front);
        var x :| x in front && value(x) == value(last);
        var i :| 0 <= i < |front| && front[i] == x;
        assert value(xs[i]) == value(xs[|xs| - 1]);
      } else {
        assert Values(value, xs) == Values(value, front) + {value(last)};
        forall i | 0 <= i < |front| ensures value(xs[i]) != value(last) { assert front[i] in front; }
      }
    }
  }

  lemma OneValue<T(!new), V>(value: T -> V, xs: seq<T>)
    requires xs != []
    ensures |Values(value, xs)| == 1 <==> forall i | 0 <= i < |xs| :: value(xs[i]) == value(xs[0])
  {
    assert xs[0] in xs && value(xs[0]) in Values(value, xs);
    assert (forall i | 0 <= i < |xs| :: value(xs[i]) == value(xs[0])) ==> Values(value, xs) == {value(xs[0])};
    if |Values(value, xs)| == 1 {
      var v := value(xs[0]);
      var others := Values(value, xs) - {v};
      assert Values(value, xs) == others + {v};
      assert others == {};
      forall i | 0 <= i < |xs| ensures value(xs[i]) == v {
        assert xs[i] in xs && value(xs[i]) in Values(value, xs);
        assert value(xs[i]) in {v};
      }
    }
  }

  /** An overload set may be folded into one member with optional parameters when it is neither an
      operator nor mixed nor a const pair, no two of it take as many parameters, and all give the same. */
  lemma FoldedExactly(n: Naming, f: Facts, d: Declaration)
    ensures var group := Named(f.all, d.owningClassUsr, d.name);
            Decide(n, f.all, d.owningClassUsr, d.name) == OptionalParameters
            <==> !(|d.name| > 8 && d.name[..8] == "operator") && |group| > 1 && !Mixed(f, d) && !OnlyPair(n, f, d)
                 && (forall i, j | 0 <= i < j < |group| :: n.arity(group[i].signature) != n.arity(group[j].signature))
                 && forall i | 0 <= i < |group| :: n.resultType(group[i].signature) == n.resultType(group[0].signature)
  {
    var group := Named(f.all, d.owningClassUsr, d.name);
    var arity, result := (e: Declaration) => n.arity(e.signature), (e: Declaration) => n.resultType(e.signature);
    PairIs(n, f, d);
    MixedIs(n, f, d);
    CountValues(arity, group);
    assert Values(arity, group) == Arities(n, group) && Values(result, group) == Results(n, group);
    if |group| > 1 { OneValue(result, group); }
  }

  // ----- operators -----

  lemma OwnerIs(f: Facts, d: Declaration, k: int)
    requires d.owningClassUsr.Some? && OwnerAt(f, d, k)
    ensures FindRecord(f.records, d.owningClassUsr.value) == Some(f.records[k])
  {
    FoundRecord(f, f.records, d.owningClassUsr.value);
    var r := FindRecord(f.records, d.owningClassUsr.value);
    assert f.records[k].usr == d.owningClassUsr.value;
    var i :| 0 <= i < |f.records| && f.records[i] == r.value && f.records[i].usr == d.owningClassUsr.value
             && forall j | 0 <= j < i :: f.records[j].usr != d.owningClassUsr.value;
    assert i == k;
  }

  lemma TakesIs(n: Naming, f: Facts, d: Declaration, e: Declaration)
    requires d.owningClassUsr.Some?
    ensures var owner := FindRecord(f.records, d.owningClassUsr.value);
            Takes(n, f, d, e) <==> owner.Some? && TakesOwner(n, f, owner.value, e)
  {
    FoundRecord(f, f.records, d.owningClassUsr.value);
    var owner := FindRecord(f.records, d.owningClassUsr.value);
    if Takes(n, f, d, e) {
      var k :| OwnerAt(f, d, k)
               && n.sameRecord(OwnParams(f, e)[0].ty, Type.Record(f.records[k].usr, f.records[k].name));
      OwnerIs(f, d, k);
    }
    if owner.Some? && TakesOwner(n, f, owner.value, e) {
      var k :| 0 <= k < |f.records| && f.records[k] == owner.value && f.records[k].usr == d.owningClassUsr.value
               && forall j | 0 <= j < k :: f.records[j].usr != d.owningClassUsr.value;
      assert OwnerAt(f, d, k);
    }
  }

  /** The operator the pass leaves native, by position. */
  lemma NativeAt(n: Naming, f: Facts, d: Declaration) returns (i: nat)
    requires d.owningClassUsr.Some? && d in f.all && d.isFreeOrMethod
    ensures Bucket(f, f.all, d) != [] && i < |f.all|
    ensures f.all[i] == Native(n, f, FindRecord(f.records, d.owningClassUsr.value), Bucket(f, f.all, d))
    ensures Competes(f, d, f.all[i])
    ensures if exists e | e in f.all :: Competes(f, d, e) && Takes(n, f, d, e) then FirstTaker(n, f, d, i)
            else forall j | 0 <= j < i :: !Competes(f, d, f.all[j])
  {
    BucketMembers(f, f.all, d);
    assert d in Bucket(f, f.all, d);
    forall e ensures Takes(n, f, d, e) <==> FindRecord(f.records, d.owningClassUsr.value).Some?
                                            && TakesOwner(n, f, FindRecord(f.records, d.owningClassUsr.value).value, e)
    {
      TakesIs(n, f, d, e);
    }
    var owner := FindRecord(f.records, d.owningClassUsr.value);
    if owner.Some? && FirstTaking(n, f, owner.value, Bucket(f, f.all, d)).Some? {
      i := TakerHead(n, f, f.all, d, owner.value);
    } else {
      if owner.Some? { var _ := TakerHead(n, f, f.all, d, owner.value); }
      i := BucketHead(f, f.all, d);
    }
  }

  lemma NativeIs(n: Naming, f: Facts, d: Declaration)
    requires EachOnce(f.all) && d.owningClassUsr.Some? && d in f.all && d.isFreeOrMethod
    ensures var bucket := Bucket(f, f.all, d);
            && bucket != []
            && (StaysNative(n, f, d)
                <==> |bucket| <= 1 || Native(n, f, FindRecord(f.records, d.owningClassUsr.value), bucket).usr == d.usr)
  {
    var bucket := Bucket(f, f.all, d);
    var i := NativeAt(n, f, d);
    var native := f.all[i];
    EachOnceDistinct(f.all);
    BucketMembers(f, f.all, d);
    assert d in bucket && native in bucket;
    if native.usr == d.usr { assert native == d; }
    if |bucket| <= 1 { assert bucket == [d]; }
    if StaysNative(n, f, d) { NativeIsFirst(n, f, d, i); }
  }

  lemma NativeIsFirst(n: Naming, f: Facts, d: Declaration, i: nat)
    requires StaysNative(n, f, d) && i < |f.all| && Competes(f, d, f.all[i]) && d.isFreeOrMethod
    requires if exists e | e in f.all :: Competes(f, d, e) && Takes(n, f, d, e) then FirstTaker(n, f, d, i)
             else forall j | 0 <= j < i :: !Competes(f, d, f.all[j])
    ensures f.all[i] == d
  {
    if exists e | e in f.all :: Competes(f, d, e) && Takes(n, f, d, e) {
      var k :| 0 <= k < |f.all| && f.all[k] == d && FirstTaker(n, f, d, k);
      assert k == i;
    } else {
      var k :| 0 <= k < |f.all| && f.all[k] == d && forall j | 0 <= j < k :: !Competes(f, d, f.all[j]);
      assert Competes(f, d, d);
      assert k == i;
    }
  }

  // ----- the name before ordinals -----

  lemma OperatorIs(n: Naming, f: Facts, d: Declaration)
    requires EachOnce(f.all) && d in f.all && d.isFreeOrMethod
    ensures var computed := OperatorName(n, f, Group(f.all, d.owningClassUsr, d.name), d);
            OperatorSpelled(n, f, d, if computed.Some? then computed.value else d.name)
  {
    if d.owningClassUsr.Some? {
      var t := Suffixed(n, "", OwnParams(f, d));
      assert "" + t == t;
      NativeIs(n, f, d);
    } else if d.usr in f.functionParams {
      var t := Suffixed(n, "", f.functionParams[d.usr]);
      assert "" + t == t;
    }
  }

  lemma TypedIs(n: Naming, f: Facts, d: Declaration)
    ensures var computed := TypedName(n, f, d);
            TypeSpelled(n, f, d, if computed.Some? then computed.value else d.name)
  {
    if d.usr in f.functionParams {
      var t := Suffixed(n, d.name, f.functionParams[d.usr]);
    } else if d.usr in f.methodParams {
      var t := Suffixed(n, d.name, f.methodParams[d.usr]);
    }
  }

  /** The name the pass computes is the one the signature gives. */
  lemma EffectiveIs(n: Naming, f: Facts, d: Declaration)
    requires EachOnce(f.all) && d in f.all && d.isFreeOrMethod
    ensures SignatureName(n, f, d, Effective(n, f, d))
  {
    OverloadedIs(f, d);
    if Overloaded(f, d) {
      MixedIs(n, f, d);
      PairIs(n, f, d);
      NamedNoFewer(f, d);
      OperatorIs(n, f, d);
      TypedIs(n, f, d);
    }
  }

  lemma NamedNoFewer(f: Facts, d: Declaration)
    requires Overloaded(f, d) && d in f.all
    ensures |NamedLike(f.all, d)| > 1
  {
    NamedMembers(f.all, d.owningClassUsr, d.name);
    var e :| e in f.all && Rival(d, e) && e != d;
    assert d in NamedLike(f.all, d) && e in NamedLike(f.all, d);
  }

  /** There is one such name. */
  lemma OneSignatureName(n: Naming, f: Facts, d: Declaration, s: string, t: string)
    requires SignatureName(n, f, d, s) && SignatureName(n, f, d, t)
    ensures s == t
  {
    forall params, u, v | Suffixes(n, params, u) && Suffixes(n, params, v) ensures u == v {
      OneSpelling(n, params, u, v);
    }
  }

  // ----- and the ordinals after it -----

  /** The members of the group that get the same name and come earlier by usr. */
  ghost function Earlier(n: Naming, f: Facts, d: Declaration, base: string): set<string> {
    set e | e in f.all && Rival(d, e) && SignatureName(n, f, e, base) && Less(e.usr, d.usr) :: e.usr
  }

  ghost predicate Numbered(n: Naming, f: Facts, d: Declaration, s: string) {
    exists base :: SignatureName(n, f, d, base) && NumberedAs(n, f, d, base, s)
  }

  /** The first of a shared name keeps it; the others count from 2. */
  ghost predicate NumberedAs(n: Naming, f: Facts, d: Declaration, base: string, s: string) {
    var rank := |Earlier(n, f, d, base)|;
    s == base + if rank == 0 then "" else Numeral(rank + 1)
  }

  lemma EarlierIs(n: Naming, f: Facts, d: Declaration)
    requires EachOnce(f.all) && d in f.all && d.isFreeOrMethod
    ensures Earlier(n, f, d, Effective(n, f, d)) == Before(Peers(n, f, d), d.usr)
  {
    GroupMembers(f.all, d.owningClassUsr, d.name);
    var base := Effective(n, f, d);
    forall e | e in f.all && Rival(d, e) ensures SignatureName(n, f, e, base) <==> Effective(n, f, e) == base {
      EffectiveIs(n, f, e);
      if SignatureName(n, f, e, base) { OneSignatureName(n, f, e, base, Effective(n, f, e)); }
    }
  }

  /** Under the renaming the pass computes every callable is spelled with the name its signature
      gives, and after it the ordinal of its place among those of its group that share that name. */
  lemma RenamesAreNumbered(n: Naming, f: Facts, renames: map<string, string>, d: Declaration)
    requires EachOnce(f.all) && d in f.all && d.isFreeOrMethod && Spelled(renames, d) == Final(n, f, d)
    ensures Numbered(n, f, d, Spelled(renames, d))
  {
    EffectiveIs(n, f, d);
    EarlierIs(n, f, d);
    assert NumberedAs(n, f, d, Effective(n, f, d), Spelled(renames, d));
  }

  // ----- decision by decision -----

  /** `s` is `base`, or `base` and an ordinal from 2. */
  ghost predicate WithOrdinal(base: string, s: string) {
    s == base || exists k: nat :: k >= 2 && s == base + Numeral(k)
  }

  lemma NumberedHasOrdinal(n: Naming, f: Facts, d: Declaration, base: string, s: string)
    requires Numbered(n, f, d, s) && SignatureName(n, f, d, base)
    ensures WithOrdinal(base, s)
  {
    var b :| SignatureName(n, f, d, b) && NumberedAs(n, f, d, b, s);
    OneSignatureName(n, f, d, b, base);
    var rank := |Earlier(n, f, d, base)|;
    if rank == 0 { assert base + "" == base; } else { assert s == base + Numeral(rank + 1); }
  }

  /** A name nothing else has stays. */
  lemma AloneStays(n: Naming, f: Facts, d: Declaration, s: string)
    requires Numbered(n, f, d, s) && !Overloaded(f, d)
    ensures s == d.name
  {
    var b :| SignatureName(n, f, d, b) && NumberedAs(n, f, d, b, s);
    assert Earlier(n, f, d, b) == {} by {
      forall e | e in f.all && Rival(d, e) && Less(e.usr, d.usr) ensures false {
        assert e == d;
        LessIrreflexive(d.usr);
      }
    }
    assert d.name + "" == d.name;
  }

  /** Where static and instance members share a name, the static ones get the suffix. */
  lemma StaticsAreMarked(n: Naming, f: Facts, d: Declaration, s: string)
    requires Numbered(n, f, d, s) && Overloaded(f, d) && Mixed(f, d)
    ensures WithOrdinal(if d.isStatic then d.name + "Static" else d.name, s)
  {
    NumberedHasOrdinal(n, f, d, if d.isStatic then d.name + "Static" else d.name, s);
  }

  /** Of the operators of one class, name and arity at most one stays native. */
  lemma OneStaysNative(n: Naming, f: Facts, d: Declaration, e: Declaration)
    requires EachOnce(f.all) && d in f.all && e in f.all && d.isFreeOrMethod && d.owningClassUsr.Some?
    requires Competes(f, d, e) && StaysNative(n, f, d) && StaysNative(n, f, e)
    ensures d == e
  {
    var i := NativeAt(n, f, d);
    NativeIsFirst(n, f, d, i);
    assert forall g :: Competes(f, d, g) <==> Competes(f, e, g);
    SameTakers(n, f, d, e);
    NativeIsFirst(n, f, e, i);
  }

  lemma SameTakers(n: Naming, f: Facts, d: Declaration, e: Declaration)
    requires d.owningClassUsr == e.owningClassUsr
    ensures forall g :: Takes(n, f, d, g) <==> Takes(n, f, e, g)
  {
    assert forall k :: OwnerAt(f, d, k) <==> OwnerAt(f, e, k);
  }

  /** An operator the language has keeps its name where it stays native; any other operator gets the
      bridge name of its arity and a suffix for each parameter. */
  lemma OperatorsAreBridged(n: Naming, f: Facts, d: Declaration, s: string)
    requires Numbered(n, f, d, s) && Overloaded(f, d) && !Mixed(f, d) && IsOperator(d)
    requires d.owningClassUsr.Some? || d.usr in f.functionParams
    ensures var params := if d.owningClassUsr.Some? then OwnParams(f, d) else f.functionParams[d.usr];
            if d.owningClassUsr.Some? && n.isDirect(d.name, |params|) && StaysNative(n, f, d)
            then WithOrdinal(d.name, s)
            else exists t :: Suffixes(n, params, t) && WithOrdinal(n.bridge(d.name, |params|) + t, s)
  {
    var b :| SignatureName(n, f, d, b) && NumberedAs(n, f, d, b, s);
    NumberedHasOrdinal(n, f, d, b, s);
  }

  /** A const and a non-const member with the same parameters keep their name. */
  lemma PairsStay(n: Naming, f: Facts, d: Declaration, s: string)
    requires Numbered(n, f, d, s) && Overloaded(f, d) && !Mixed(f, d) && !IsOperator(d) && OnlyPair(n, f, d)
    ensures WithOrdinal(d.name, s)
  {
    NumberedHasOrdinal(n, f, d, d.name, s);
  }

  /** Any other overload is its name, a suffix for each parameter in order, and `Const` exactly if
      its signature is const. */
  lemma OthersAreTyped(n: Naming, f: Facts, d: Declaration, s: string)
    requires Numbered(n, f, d, s) && Overloaded(f, d) && !Mixed(f, d) && !IsOperator(d) && !OnlyPair(n, f, d)
    requires d.usr in f.functionParams || d.usr in f.methodParams
    ensures var params := if d.usr in f.functionParams then f.functionParams[d.usr] else f.methodParams[d.usr];
            exists t :: Suffixes(n, params, t)
                        && WithOrdinal(d.name + t + if n.isConst(d.signature) then "Const" else "", s)
  {
    var b :| SignatureName(n, f, d, b) && NumberedAs(n, f, d, b, s);
    NumberedHasOrdinal(n, f, d, b, s);
  }
}
