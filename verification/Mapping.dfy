/**
 What the mapping solver knows of a project: indices built once and read ever
 after, the class hierarchy under a type, and which of its classes a pointer
 can hold.
 */
module Mapping {
  import opened Wrappers
  import opened Strings
  import opened Catalogs
  import opened Chains
  import opened Reachability

  // ----- naive scans -----

  predicate Declares(d: TypeDeclaration, usage: TypeUsage) {
    usage.isInheritance && d.file == usage.file && d.line <= usage.line <= d.endLine
  }

  /** The declarations an inheritance usage belongs to. */
  function Declaring(ds: seq<TypeDeclaration>, usage: TypeUsage): seq<TypeDeclaration> {
    if ds == [] then []
    else Declaring(ds[..|ds| - 1], usage) + if Declares(ds[|ds| - 1], usage) then [ds[|ds| - 1]] else []
  }

  /** The bases named within declarations of `usr`, in order, once per naming. */
  function BasesFrom(base: string, ds: seq<TypeDeclaration>, usr: string): seq<string> {
    if ds == [] then []
    else BasesFrom(base, ds[..|ds| - 1], usr) + if ds[|ds| - 1].usr == usr then [base] else []
  }

  function Bases(ds: seq<TypeDeclaration>, us: seq<TypeUsage>, usr: string): seq<string> {
    if us == [] then []
    else
      var last := us[|us| - 1];
      Bases(ds, us[..|us| - 1], usr) + BasesFrom(last.typeUsr, Declaring(ds, last), usr)
  }

  function Subclasses(ds: seq<TypeDeclaration>, us: seq<TypeUsage>, base: string): seq<TypeDeclaration> {
    if us == [] then []
    else
      var last := us[|us| - 1];
      Subclasses(ds, us[..|us| - 1], base) + if last.typeUsr == base then Declaring(ds, last) else []
  }

  function CallsOf(calls: seq<CallEdge>, usr: string): seq<CallEdge> {
    if calls == [] then []
    else CallsOf(calls[..|calls| - 1], usr) + if calls[|calls| - 1].callerUsr == usr then [calls[|calls| - 1]] else []
  }

  function FunctionOf(fs: seq<FunctionDeclaration>, usr: string): (f: Option<FunctionDeclaration>)
    ensures f.Some? ==> f.value.usr == usr && f.value in fs
  {
    if fs == [] then None
    else match FunctionOf(fs[..|fs| - 1], usr)
      case Some(f) => Some(f)
      case None => if fs[|fs| - 1].usr == usr then Some(fs[|fs| - 1]) else None
  }

  // ----- mutual inverses -----

  /** How many declarations of `usr` name `base`. */
  lemma DeclaringMembers(ds: seq<TypeDeclaration>, usage: TypeUsage)
    ensures forall d :: d in Declaring(ds, usage) <==> d in ds && Declares(d, usage)
  {
    if ds != [] {
      DeclaringMembers(ds[..|ds| - 1], usage);
      assert ds == ds[..|ds| - 1] + [ds[|ds| - 1]];
    }
  }

  lemma {:induction false} BasesFromMembers(base: string, ds: seq<TypeDeclaration>, usr: string)
    ensures base in BasesFrom(base, ds, usr) <==> exists d | d in ds :: d.usr == usr
    ensures forall b | b in BasesFrom(base, ds, usr) :: b == base
    decreases |ds|
  {
    if ds != [] {
      var last := ds[|ds| - 1];
      BasesFromMembers(base, ds[..|ds| - 1], usr);
      assert ds == ds[..|ds| - 1] + [last];
      assert last in ds;
    }
  }

  /** The index of bases says what scanning every usage against every declaration says. */
  lemma {:induction false} BasesByScan(ds: seq<TypeDeclaration>, us: seq<TypeUsage>, usr: string, base: string)
    ensures base in Bases(ds, us, usr) <==>
      exists usage, d | usage in us && d in ds :: Declares(d, usage) && d.usr == usr && usage.typeUsr == base
    decreases |us|
  {
    if us != [] {
      var rest, last := us[..|us| - 1], us[|us| - 1];
      assert us == rest + [last] && last in us;
      BasesByScan(ds, rest, usr, base);
      DeclaringMembers(ds, last);
      BasesFromMembers(last.typeUsr, Declaring(ds, last), usr);
      forall usage | usage in us ensures usage in rest || usage == last { }
    }
  }

  lemma {:induction false} SubclassesByScan(ds: seq<TypeDeclaration>, us: seq<TypeUsage>, base: string,
                                            d: TypeDeclaration)
    ensures d in Subclasses(ds, us, base)
       <==> d in ds && exists usage | usage in us :: Declares(d, usage) && usage.typeUsr == base
    decreases |us|
  {
    if us != [] {
      var rest, last := us[..|us| - 1], us[|us| - 1];
      assert us == rest + [last] && last in us;
      SubclassesByScan(ds, rest, base, d);
      DeclaringMembers(ds, last);
      forall usage | usage in us ensures usage in rest || usage == last { }
    }
  }

  /** Someone declared as `usr` is listed under a base exactly when the base is listed under `usr`. */
  lemma IndicesAreInverse(ds: seq<TypeDeclaration>, us: seq<TypeUsage>, usr: string, base: string)
    ensures base in Bases(ds, us, usr) <==> exists d | d in Subclasses(ds, us, base) :: d.usr == usr
  {
    BasesByScan(ds, us, usr, base);
    if base in Bases(ds, us, usr) {
      var usage, d :| usage in us && d in ds && Declares(d, usage) && d.usr == usr && usage.typeUsr == base;
      SubclassesByScan(ds, us, base, d);
    }
    if exists d | d in Subclasses(ds, us, base) :: d.usr == usr {
      var d :| d in Subclasses(ds, us, base) && d.usr == usr;
      SubclassesByScan(ds, us, base, d);
    }
  }

  // ----- the indices -----

  /** An absent key stands for nothing found. */
  function Get<T>(index: map<string, seq<T>>, k: string): seq<T> {
    if k in index then index[k] else []
  }

  function Push<T>(index: map<string, seq<T>>, k: string, x: T): map<string, seq<T>> {
    index[k := Get(index, k) + [x]]
  }

  function InFile(ds: seq<TypeDeclaration>, file: string): seq<TypeDeclaration> {
    if ds == [] then []
    else InFile(ds[..|ds| - 1], file) + if ds[|ds| - 1].file == file then [ds[|ds| - 1]] else []
  }

  lemma {:induction false} DeclaringInFile(ds: seq<TypeDeclaration>, usage: TypeUsage)
    ensures Declaring(InFile(ds, usage.file), usage) == Declaring(ds, usage)
    decreases |ds|
  {
    if ds != [] {
      var rest, last := ds[..|ds| - 1], ds[|ds| - 1];
      DeclaringInFile(rest, usage);
      if last.file == usage.file {
        assert (InFile(rest, usage.file) + [last])[..|InFile(rest, usage.file)|] == InFile(rest, usage.file);
      } else {
        assert InFile(ds, usage.file) == InFile(rest, usage.file);
      }
    }
  }

  method GroupByFile(ds: seq<TypeDeclaration>) returns (byFile: map<string, seq<TypeDeclaration>>)
    ensures forall file :: Get(byFile, file) == InFile(ds, file)
  {
    byFile := map[];
    for i := 0 to |ds|
      invariant forall file :: Get(byFile, file) == InFile(ds[..i], file)
    {
      assert ds[..i + 1][..i] == ds[..i];
      byFile := Push(byFile, ds[i].file, ds[i]);
    }
    assert ds[..|ds|] == ds;
  }

  ghost predicate IndexesBases(ds: seq<TypeDeclaration>, us: seq<TypeUsage>, bases: map<string, seq<string>>) {
    forall usr :: Get(bases, usr) == Bases(ds, us, usr)
  }

  ghost predicate IndexesSubclasses(ds: seq<TypeDeclaration>, us: seq<TypeUsage>,
                                    subclasses: map<string, seq<TypeDeclaration>>) {
    forall base :: Get(subclasses, base) == Subclasses(ds, us, base)
  }

  /** `after` is `before` with `base` noted for each of `ds`. */
  ghost predicate NotesBase(before: map<string, seq<string>>, after: map<string, seq<string>>, base: string,
                            ds: seq<TypeDeclaration>) {
    forall usr :: Get(after, usr) == Get(before, usr) + BasesFrom(base, ds, usr)
  }

  /** `after` is `before` with `ds` listed under `base`. */
  ghost predicate NotesSubclasses(before: map<string, seq<TypeDeclaration>>, after: map<string, seq<TypeDeclaration>>,
                                  base: string, ds: seq<TypeDeclaration>) {
    forall b :: Get(after, b) == Get(before, b) + if b == base then ds else []
  }

  lemma BasesFromMore(base: string, ds: seq<TypeDeclaration>, d: TypeDeclaration, usr: string)
    ensures BasesFrom(base, ds + [d], usr) == if d.usr == usr then BasesFrom(base, ds, usr) + [base]
        else BasesFrom(base, ds, usr)
  {
    assert (ds + [d])[..|ds|] == ds;
    assert BasesFrom(base, ds, usr) + [] == BasesFrom(base, ds, usr);
  }

  lemma NotedFor(before: seq<string>, after: seq<string>, base: string, ds: seq<TypeDeclaration>, d: TypeDeclaration,
                 usr: string)
    requires after == before + BasesFrom(base, ds, usr)
    ensures (if d.usr == usr then after + [base] else after) == before + BasesFrom(base, ds + [d], usr)
  {
    BasesFromMore(base, ds, d, usr);
    assert before + BasesFrom(base, ds, usr) + [base] == before + (BasesFrom(base, ds, usr) + [base]);
  }

  lemma NotesOneBase(before: map<string, seq<string>>, after: map<string, seq<string>>, base: string,
                     ds: seq<TypeDeclaration>, d: TypeDeclaration)
    requires NotesBase(before, after, base, ds)
    ensures NotesBase(before, Push(after, d.usr, base), base, ds + [d])
  {
    forall usr ensures Get(Push(after, d.usr, base), usr) == Get(before, usr) + BasesFrom(base, ds + [d], usr) {
      assert Get(after, usr) == Get(before, usr) + BasesFrom(base, ds, usr);
      NotedFor(Get(before, usr), Get(after, usr), base, ds, d, usr);
    }
  }

  lemma NotesOneSubclass(before: map<string, seq<TypeDeclaration>>, after: map<string, seq<TypeDeclaration>>,
                         base: string, ds: seq<TypeDeclaration>, d: TypeDeclaration)
    requires NotesSubclasses(before, after, base, ds)
    ensures NotesSubclasses(before, Push(after, base, d), base, ds + [d])
  {
    forall b ensures Get(Push(after, base, d), b) == Get(before, b) + if b == base then ds + [d] else [] {
      assert Get(after, b) == Get(before, b) + if b == base then ds else [];
    }
  }

  /** Adds one usage to both hierarchy indices. */
  method IndexUsage(candidates: seq<TypeDeclaration>, usage: TypeUsage, bases: map<string, seq<string>>,
                    subclasses: map<string, seq<TypeDeclaration>>)
      returns (b: map<string, seq<string>>, s: map<string, seq<TypeDeclaration>>)
    requires usage.isInheritance && forall d | d in candidates :: d.file == usage.file
    ensures NotesBase(bases, b, usage.typeUsr, Declaring(candidates, usage))
    ensures NotesSubclasses(subclasses, s, usage.typeUsr, Declaring(candidates, usage))
  {
    b, s := bases, subclasses;
    for i := 0 to |candidates|
      invariant NotesBase(bases, b, usage.typeUsr, Declaring(candidates[..i], usage))
      invariant NotesSubclasses(subclasses, s, usage.typeUsr, Declaring(candidates[..i], usage))
    {
      var d := candidates[i];
      assert d in candidates;
      assert candidates[..i + 1][..i] == candidates[..i];
      if d.line <= usage.line && usage.line <= d.endLine {
        NotesOneBase(bases, b, usage.typeUsr, Declaring(candidates[..i], usage), d);
        NotesOneSubclass(subclasses, s, usage.typeUsr, Declaring(candidates[..i], usage), d);
        b := Push(b, d.usr, usage.typeUsr);
        s := Push(s, usage.typeUsr, d);
      } else {
        assert Declaring(candidates[..i + 1], usage) == Declaring(candidates[..i], usage);
      }
    }
    assert candidates[..|candidates|] == candidates;
  }

  lemma {:induction false} InFileMembers(ds: seq<TypeDeclaration>, file: string)
    ensures forall d | d in InFile(ds, file) :: d.file == file
    decreases |ds|
  {
    if ds != [] { InFileMembers(ds[..|ds| - 1], file); }
  }

  lemma {:induction false} NothingDeclares(ds: seq<TypeDeclaration>, usage: TypeUsage)
    requires !usage.isInheritance
    ensures Declaring(ds, usage) == []
    decreases |ds|
  {
    if ds != [] { NothingDeclares(ds[..|ds| - 1], usage); }
  }

  method IndexHierarchy(ds: seq<TypeDeclaration>, us: seq<TypeUsage>)
      returns (bases: map<string, seq<string>>, subclasses: map<string, seq<TypeDeclaration>>)
    ensures IndexesBases(ds, us, bases) && IndexesSubclasses(ds, us, subclasses)
  {
    var byFile: map<string, seq<TypeDeclaration>> := GroupByFile(ds);
    bases, subclasses := map[], map[];
    for i := 0 to |us|
      invariant IndexesBases(ds, us[..i], bases) && IndexesSubclasses(ds, us[..i], subclasses)
    {
      var usage := us[i];
      assert us[..i + 1][..i] == us[..i];
      if usage.isInheritance {
        assert Get(byFile, usage.file) == InFile(ds, usage.file);
        DeclaringInFile(ds, usage);
        InFileMembers(ds, usage.file);
        if usage.file in byFile {
          bases, subclasses := IndexUsage(byFile[usage.file], usage, bases, subclasses);
        }
      } else {
        NothingDeclares(ds, usage);
      }
    }
    assert us[..|us|] == us;
  }

  method IndexCalls(calls: seq<CallEdge>) returns (index: map<string, seq<CallEdge>>)
    ensures forall usr :: Get(index, usr) == CallsOf(calls, usr)
  {
    index := map[];
    for i := 0 to |calls|
      invariant forall usr :: Get(index, usr) == CallsOf(calls[..i], usr)
    {
      assert calls[..i + 1][..i] == calls[..i];
      index := Push(index, calls[i].callerUsr, calls[i]);
    }
    assert calls[..|calls|] == calls;
  }

  function Found<T>(index: map<string, T>, k: string): Option<T> {
    if k in index then Some(index[k]) else None
  }

  /** The first declaration of a usr counts. */
  method IndexFunctions(fs: seq<FunctionDeclaration>) returns (index: map<string, FunctionDeclaration>)
    ensures forall usr :: Found(index, usr) == FunctionOf(fs, usr)
  {
    index := map[];
    for i := 0 to |fs|
      invariant forall usr :: Found(index, usr) == FunctionOf(fs[..i], usr)
    {
      assert fs[..i + 1][..i] == fs[..i];
      if fs[i].usr !in index {
        index := index[fs[i].usr := fs[i]];
      }
    }
    assert fs[..|fs|] == fs;
  }

  datatype PossiblePointee = PossiblePointee(usr: string, name: string)

  /** The words of a function's body. */
  type Words = FunctionDeclaration -> seq<string>

  // ----- the hierarchy below a class -----

  /** From a class to the classes that name it as a base. */
  function Down(ds: seq<TypeDeclaration>, us: seq<TypeUsage>): Graph {
    map base | base in Named(us) :: Usrs(Subclasses(ds, us, base))
  }

  /** From a class to its bases. */
  function Up(ds: seq<TypeDeclaration>, us: seq<TypeUsage>): Graph {
    map usr | usr in Usrs(ds) :: Bases(ds, us, usr)
  }

  function Named(us: seq<TypeUsage>): set<string> {
    set u | u in us :: u.typeUsr
  }

  function Usrs(ds: seq<TypeDeclaration>): (r: seq<string>)
    ensures |r| == |ds| && forall i | 0 <= i < |ds| :: r[i] == ds[i].usr
  {
    seq(|ds|, i requires 0 <= i < |ds| => ds[i].usr)
  }

  lemma DownEdge(ds: seq<TypeDeclaration>, us: seq<TypeUsage>, base: string, usr: string)
    ensures Edge(Down(ds, us), base, usr) <==> exists d | d in Subclasses(ds, us, base) :: d.usr == usr
    ensures Edge(Down(ds, us), base, usr) <==> Edge(Up(ds, us), usr, base)
  {
    var subs := Subclasses(ds, us, base);
    if exists d | d in subs :: d.usr == usr {
      var d :| d in subs && d.usr == usr;
      SubclassesByScan(ds, us, base, d);
      var i :| 0 <= i < |subs| && subs[i] == d;
      assert Usrs(subs)[i] == usr;
      var j :| 0 <= j < |ds| && ds[j] == d;
      assert Usrs(ds)[j] == usr;
    }
    if Edge(Down(ds, us), base, usr) {
      var i :| 0 <= i < |subs| && Usrs(subs)[i] == usr;
      assert subs[i] in subs;
    }
    IndicesAreInverse(ds, us, usr, base);
  }

  /** Reaching down is being reached upwards. */
  lemma DownIsUpReversed(ds: seq<TypeDeclaration>, us: seq<TypeUsage>, base: string, usr: string)
    ensures Reaches(Down(ds, us), base, usr) <==> Reaches(Up(ds, us), usr, base)
  {
    if Reaches(Down(ds, us), base, usr) {
      var p :| PathFromTo(Down(ds, us), p, base, usr);
      var q := seq(|p|, i requires 0 <= i < |p| => p[|p| - 1 - i]);
      forall i | 0 <= i < |q| - 1 ensures Edge(Up(ds, us), q[i], q[i + 1]) {
        assert Edge(Down(ds, us), p[|p| - 2 - i], p[|p| - 1 - i]);
        DownEdge(ds, us, p[|p| - 2 - i], p[|p| - 1 - i]);
      }
      assert PathFromTo(Up(ds, us), q, usr, base);
    }
    if Reaches(Up(ds, us), usr, base) {
      var p :| PathFromTo(Up(ds, us), p, usr, base);
      var q := seq(|p|, i requires 0 <= i < |p| => p[|p| - 1 - i]);
      forall i | 0 <= i < |q| - 1 ensures Edge(Down(ds, us), q[i], q[i + 1]) {
        assert Edge(Up(ds, us), p[|p| - 2 - i], p[|p| - 1 - i]);
        DownEdge(ds, us, p[|p| - 1 - i], p[|p| - 2 - i]);
      }
      assert PathFromTo(Down(ds, us), q, base, usr);
    }
  }

  /** The class itself or a descendant. */
  ghost predicate AtOrBelow(ds: seq<TypeDeclaration>, us: seq<TypeUsage>, root: string, usr: string) {
    usr == root || Reaches(Up(ds, us), usr, root)
  }

  // ----- narrowing, as a specification -----

  predicate HasPair(words: seq<string>, first: string, second: string) {
    exists i | 0 <= i < |words| - 1 :: words[i] == first && words[i + 1] == second
  }

  /** The candidates the body constructs. */
  function Evidence(words: Words, cs: seq<PossiblePointee>, owner: FunctionDeclaration): (e: seq<PossiblePointee>)
    ensures |e| <= |cs| && (|e| == |cs| ==> e == cs)
  {
    if cs == [] then []
    else
      var init, last := cs[..|cs| - 1], cs[|cs| - 1];
      var e := Evidence(words, init, owner);
      assert cs == init + [last];
      if HasPair(words(owner), "new", last.name) then e + [last] else e
  }

  /** The first resolved callee, in call order, whose result the body returns. */
  function ForwardedAmong(words: Words, fs: seq<FunctionDeclaration>, edges: seq<CallEdge>,
                          owner: FunctionDeclaration): (c: Option<FunctionDeclaration>)
    ensures c.Some? ==> FunctionOf(fs, c.value.usr) == c
  {
    if edges == [] then None
    else
      var callee := if edges[0].resolution.Resolved? then FunctionOf(fs, edges[0].resolution.calleeUsr) else None;
      if callee.Some? && HasPair(words(owner), "return", callee.value.name) then callee
      else ForwardedAmong(words, fs, edges[1..], owner)
  }

  function Forwarded(words: Words, fs: seq<FunctionDeclaration>, calls: seq<CallEdge>,
                     owner: FunctionDeclaration): (c: Option<FunctionDeclaration>)
    ensures c.Some? ==> FunctionOf(fs, c.value.usr) == c
  {
    ForwardedAmong(words, fs, CallsOf(calls, owner.usr), owner)
  }

  /** Narrowing follows forwarded calls until a body gives evidence. */
  function ForwardingChain(words: Words, fs: seq<FunctionDeclaration>, calls: seq<CallEdge>,
                           cs: seq<PossiblePointee>): Chain<FunctionDeclaration, PossiblePointee> {
    Chain((f: FunctionDeclaration) => Forwarded(words, fs, calls, f), (f: FunctionDeclaration) => f.usr,
          (f: FunctionDeclaration) => Evidence(words, cs, f), cs)
  }

  ghost function KnownUsrs(fs: seq<FunctionDeclaration>, owner: FunctionDeclaration): set<string> {
    {owner.usr} + set f | f in fs :: f.usr
  }

  lemma ChainCovered(words: Words, fs: seq<FunctionDeclaration>, calls: seq<CallEdge>, cs: seq<PossiblePointee>,
                     owner: FunctionDeclaration)
    ensures Covers(ForwardingChain(words, fs, calls, cs), owner, KnownUsrs(fs, owner))
  {
  }

  /** What narrowing computes. */
  ghost function Narrowed(words: Words, fs: seq<FunctionDeclaration>, calls: seq<CallEdge>, cs: seq<PossiblePointee>,
                          owner: FunctionDeclaration): seq<PossiblePointee> {
    ChainCovered(words, fs, calls, cs, owner);
    Search(ForwardingChain(words, fs, calls, cs), owner, {}, KnownUsrs(fs, owner))
  }

  /** `a` is `b` with some entries left out. */
  predicate Sublist(a: seq<PossiblePointee>, b: seq<PossiblePointee>) {
    if a == [] then true
    else if b == [] then false
    else if a[|a| - 1] == b[|b| - 1] && Sublist(a[..|a| - 1], b[..|b| - 1]) then true
    else Sublist(a, b[..|b| - 1])
  }

  lemma {:induction false} EvidenceSublist(words: Words, cs: seq<PossiblePointee>, owner: FunctionDeclaration)
    ensures Sublist(Evidence(words, cs, owner), cs)
    decreases |cs|
  {
    if cs != [] {
      var init := cs[..|cs| - 1];
      EvidenceSublist(words, init, owner);
      var e := Evidence(words, init, owner);
      assert (e + [cs[|cs| - 1]])[..|e|] == e;
    }
  }

  lemma {:induction false} SublistOfItself(cs: seq<PossiblePointee>)
    ensures Sublist(cs, cs)
    decreases |cs|
  {
    if cs != [] { SublistOfItself(cs[..|cs| - 1]); }
  }

  /** The answer is some of the candidates, in their order, and not none of them. */
  lemma {:induction false} SearchIsSublist(words: Words, fs: seq<FunctionDeclaration>, calls: seq<CallEdge>,
                                           cs: seq<PossiblePointee>,
                        owner: FunctionDeclaration, visited: set<string>, universe: set<string>)
    requires Covers(ForwardingChain(words, fs, calls, cs), owner, universe)
    ensures var r := Search(ForwardingChain(words, fs, calls, cs), owner, visited, universe);
            |r| <= |cs| && (|r| == |cs| ==> r == cs) && (cs != [] ==> r != []) && Sublist(r, cs)
    decreases |universe - visited|
  {
    EvidenceSublist(words, cs, owner);
    SublistOfItself(cs);
    if owner.usr !in visited && Evidence(words, cs, owner) == [] && Forwarded(words, fs, calls, owner).Some? {
      ShrinkingSet(universe - (visited + {owner.usr}), universe - visited);
      SearchIsSublist(words, fs, calls, cs, Forwarded(words, fs, calls, owner).value, visited + {owner.usr}, universe);
    }
  }

  lemma NarrowedIsSublist(words: Words, fs: seq<FunctionDeclaration>, calls: seq<CallEdge>, cs: seq<PossiblePointee>,
                          owner: FunctionDeclaration)
    ensures Sublist(Narrowed(words, fs, calls, cs, owner), cs)
    ensures cs != [] ==> Narrowed(words, fs, calls, cs, owner) != []
  {
    ChainCovered(words, fs, calls, cs, owner);
    SearchIsSublist(words, fs, calls, cs, owner, {}, KnownUsrs(fs, owner));
  }

  // ----- narrowing, as it is meant -----

  lemma {:induction false} WalkRegistered(words: Words, fs: seq<FunctionDeclaration>, calls: seq<CallEdge>,
                                          cs: seq<PossiblePointee>, owner: FunctionDeclaration, n: nat)
    requires FunctionOf(fs, owner.usr) == Some(owner)
    ensures var f := Walk(ForwardingChain(words, fs, calls, cs), owner, n); f.Some? ==> FunctionOf(fs, f.value.usr) == f
    decreases n
  {
    if n > 0 { WalkRegistered(words, fs, calls, cs, owner, n - 1); }
  }

  lemma UsrsTell(words: Words, fs: seq<FunctionDeclaration>, calls: seq<CallEdge>, cs: seq<PossiblePointee>,
                 owner: FunctionDeclaration)
    requires FunctionOf(fs, owner.usr) == Some(owner)
    ensures KeysTell(ForwardingChain(words, fs, calls, cs), owner)
  {
    forall n: nat ensures var f := Walk(ForwardingChain(words, fs, calls, cs), owner, n);
        f.Some? ==> FunctionOf(fs, f.value.usr) == f {
      WalkRegistered(words, fs, calls, cs, owner, n);
    }
  }

  /** Narrowing gives the first non-empty evidence along the chain of forwarded calls. */
  lemma NarrowedIsFirstEvidence(words: Words, fs: seq<FunctionDeclaration>, calls: seq<CallEdge>,
                                cs: seq<PossiblePointee>,
                                owner: FunctionDeclaration, k: nat)
    requires FunctionOf(fs, owner.usr) == Some(owner)
    requires FindsAt(ForwardingChain(words, fs, calls, cs), owner, k)
    requires forall j | 0 <= j < k :: !FindsAt(ForwardingChain(words, fs, calls, cs), owner, j)
    ensures Narrowed(words, fs, calls, cs, owner)
        == Evidence(words, cs, Walk(ForwardingChain(words, fs, calls, cs), owner, k).value)
  {
    UsrsTell(words, fs, calls, cs, owner);
    ChainCovered(words, fs, calls, cs, owner);
    SearchFindsFirst(ForwardingChain(words, fs, calls, cs), owner, 0, k, {}, KnownUsrs(fs, owner));
  }

  /** Without evidence anywhere on the chain, whether it ends or cycles, nothing is ruled out. */
  lemma NarrowedWithoutEvidence(words: Words, fs: seq<FunctionDeclaration>, calls: seq<CallEdge>,
                                cs: seq<PossiblePointee>, owner: FunctionDeclaration)
    requires forall k: nat :: !FindsAt(ForwardingChain(words, fs, calls, cs), owner, k)
    ensures Narrowed(words, fs, calls, cs, owner) == cs
  {
    ChainCovered(words, fs, calls, cs, owner);
    SearchFindsNothing(ForwardingChain(words, fs, calls, cs), owner, 0, {}, KnownUsrs(fs, owner));
  }

  method Constructed(words: Words, cs: seq<PossiblePointee>, owner: FunctionDeclaration)
      returns (e: seq<PossiblePointee>)
    ensures e == Evidence(words, cs, owner)
  {
    e := [];
    for i := 0 to |cs|
      invariant e == Evidence(words, cs[..i], owner)
    {
      assert cs[..i + 1][..i] == cs[..i];
      if HasPair(words(owner), "new", cs[i].name) {
        e := e + [cs[i]];
      }
    }
    assert cs[..|cs|] == cs;
  }

  // ----- the facts -----

  class ProjectFacts {
    const declarations: seq<TypeDeclaration>
    const usages: seq<TypeUsage>
    const functions: seq<FunctionDeclaration>
    const calls: seq<CallEdge>
    const basesByDeclUsr: map<string, seq<string>>
    const subclassesByBaseUsr: map<string, seq<TypeDeclaration>>
    const callsByCallerUsr: map<string, seq<CallEdge>>
    const functionsByUsr: map<string, FunctionDeclaration>

    /** Every index says what the scan it stands for says. */
    ghost predicate Valid() {
      && IndexesBases(declarations, usages, basesByDeclUsr)
      && IndexesSubclasses(declarations, usages, subclassesByBaseUsr)
      && (forall usr :: Get(callsByCallerUsr, usr) == CallsOf(calls, usr))
      && (forall usr :: Found(functionsByUsr, usr) == FunctionOf(functions, usr))
    }

    constructor NewFull(declarations: seq<TypeDeclaration>, usages: seq<TypeUsage>,
                        functions: seq<FunctionDeclaration>, calls: seq<CallEdge>)
      ensures Valid()
      ensures this.declarations == declarations && this.usages == usages && this.functions == functions
          && this.calls == calls
    {
      var bases: map<string, seq<string>>, subclasses: map<string, seq<TypeDeclaration>> :=
          IndexHierarchy(declarations, usages);
      var byCaller: map<string, seq<CallEdge>> := IndexCalls(calls);
      var byUsr: map<string, FunctionDeclaration> := IndexFunctions(functions);
      this.declarations, this.usages, this.functions, this.calls := declarations, usages, functions, calls;
      basesByDeclUsr, subclassesByBaseUsr, callsByCallerUsr, functionsByUsr := bases, subclasses, byCaller, byUsr;
    }

    /** `usr` and every class below it, each once, `usr` first. */
    method PossiblePointees(usr: string, name: string) returns (found: seq<PossiblePointee>)
      requires Valid()
      ensures found != [] && found[0] == PossiblePointee(usr, name)
      ensures forall i, j | 0 <= i < j < |found| :: found[i].usr != found[j].usr
      ensures forall v ::
        (exists i | 0 <= i < |found| :: found[i].usr == v) <==> AtOrBelow(declarations, usages, usr, v)
      ensures forall i | 1 <= i < |found| ::
        exists d | d in declarations :: d.usr == found[i].usr && d.name == found[i].name
    {
      var w := Worklist([PossiblePointee(usr, name)], {usr}, [usr]);
      while w.frontier != []
        invariant Walking(declarations, usages, PossiblePointee(usr, name), w)
        decreases Left(declarations, usr, w), |w.frontier|
      {
        var base := w.frontier[|w.frontier| - 1];
        Round(declarations, usages, PossiblePointee(usr, name), w);
        assert Get(subclassesByBaseUsr, base) == Subclasses(declarations, usages, base);
        w := w.(frontier := w.frontier[..|w.frontier| - 1]);
        if base in subclassesByBaseUsr {
          w := AddSubclasses(subclassesByBaseUsr[base], w);
        }
      }
      found := w.found;
      Arrived(declarations, usages, PossiblePointee(usr, name), w);
    }

    method ForwardedCallee(words: Words, owner: FunctionDeclaration) returns (callee: Option<FunctionDeclaration>)
      requires Valid()
      ensures callee == Forwarded(words, functions, calls, owner)
    {
      var edges := Get(callsByCallerUsr, owner.usr);
      for i := 0 to |edges|
        invariant ForwardedAmong(words, functions, edges[i..], owner) == ForwardedAmong(words, functions, edges, owner)
      {
        var edge := edges[i];
        assert edges[i..][0] == edge && edges[i..][1..] == edges[i + 1..];
        if edge.resolution.Resolved? {
          assert Found(functionsByUsr, edge.resolution.calleeUsr) == FunctionOf(functions, edge.resolution.calleeUsr);
          if edge.resolution.calleeUsr in functionsByUsr {
            var f := functionsByUsr[edge.resolution.calleeUsr];
            if HasPair(words(owner), "return", f.name) {
              return Some(f);
            }
          }
        }
      }
      assert edges[|edges|..] == [];
      callee := None;
    }

    /** `visited` guards against a forwarding cycle. */
    method NarrowVisiting(words: Words, cs: seq<PossiblePointee>, owner: FunctionDeclaration, visited: set<string>,
                          ghost universe: set<string>)
        returns (narrowed: seq<PossiblePointee>, visitedNow: set<string>)
      requires Valid() && Covers(ForwardingChain(words, functions, calls, cs), owner, universe)
      ensures narrowed == Search(ForwardingChain(words, functions, calls, cs), owner, visited, universe)
      decreases |universe - visited|
    {
      visitedNow := visited;
      if owner.usr in visited {
        return cs, visitedNow;
      }
      visitedNow := visited + {owner.usr};
      var constructed := Constructed(words, cs, owner);
      if constructed != [] {
        return constructed, visitedNow;
      }
      var callee := ForwardedCallee(words, owner);
      if callee.Some? {
        ShrinkingSet(universe - visitedNow, universe - visited);
        assert ForwardingChain(words, functions, calls, cs).next(owner) == callee;
        SearchIsSublist(words, functions, calls, cs, callee.value, visitedNow, universe);
        var forwarded: seq<PossiblePointee>;
        forwarded, visitedNow := NarrowVisiting(words, cs, callee.value, visitedNow, universe);
        if |forwarded| < |cs| {
          return forwarded, visitedNow;
        }
      }
      narrowed := cs;
    }

    method Narrow(words: Words, cs: seq<PossiblePointee>, owner: FunctionDeclaration)
        returns (narrowed: seq<PossiblePointee>)
      requires Valid()
      ensures narrowed == Narrowed(words, functions, calls, cs, owner)
    {
      ChainCovered(words, functions, calls, cs, owner);
      var visited: set<string>;
      narrowed, visited := NarrowVisiting(words, cs, owner, {}, KnownUsrs(functions, owner));
    }
  }

  ghost predicate Walking(ds: seq<TypeDeclaration>, us: seq<TypeUsage>, root: PossiblePointee, w: Worklist) {
    Good(ds, us, root.usr, w) && Pending(ds, us, w.seen, w.frontier) && w.found[0] == root
  }

  ghost function Left(ds: seq<TypeDeclaration>, root: string, w: Worklist): nat {
    |{root} + DeclaredUsrs(ds) - w.seen|
  }

  lemma Arrived(ds: seq<TypeDeclaration>, us: seq<TypeUsage>, root: PossiblePointee, w: Worklist)
    requires Walking(ds, us, root, w) && w.frontier == []
    ensures w.found != [] && w.found[0] == root
    ensures forall i, j | 0 <= i < j < |w.found| :: w.found[i].usr != w.found[j].usr
    ensures forall v :: (exists i | 0 <= i < |w.found| :: w.found[i].usr == v) <==> AtOrBelow(ds, us, root.usr, v)
    ensures forall i | 1 <= i < |w.found| :: exists d | d in ds :: d.usr == w.found[i].usr && d.name == w.found[i].name
  {
    forall v ensures (exists i | 0 <= i < |w.found| :: w.found[i].usr == v) <==> AtOrBelow(ds, us, root.usr, v) {
      NothingPending(ds, us, root.usr, w.found, w.seen, v);
    }
  }

  /** Who has been seen but is not on the frontier has had all its subclasses seen. */
  ghost predicate Pending(ds: seq<TypeDeclaration>, us: seq<TypeUsage>, seen: set<string>, frontier: seq<string>) {
    && (forall i | 0 <= i < |frontier| :: frontier[i] in seen)
    && (forall v, c | v in seen && v !in frontier && Edge(Down(ds, us), v, c) :: c in seen)
  }

  lemma PendingNext(ds: seq<TypeDeclaration>, us: seq<TypeUsage>, seen: set<string>, frontier: seq<string>,
                    base: string,
                    seen': set<string>, frontier': seq<string>)
    requires Pending(ds, us, seen, frontier) && frontier != [] && frontier[|frontier| - 1] == base
    requires forall d | d in Subclasses(ds, us, base) :: d.usr in seen'
    requires Grew(seen, frontier[..|frontier| - 1], seen', frontier')
    ensures Pending(ds, us, seen', frontier')
  {
    var rest := frontier[..|frontier| - 1];
    forall i | 0 <= i < |frontier'| ensures frontier'[i] in seen' {
      if frontier'[i] in rest {
        var j :| 0 <= j < |rest| && rest[j] == frontier'[i];
        assert frontier[j] in seen;
      }
    }
    assert forall j | 0 <= j < |rest| :: frontier'[j] == frontier[j];
    forall v, c | v in seen' && v !in frontier' && Edge(Down(ds, us), v, c) ensures c in seen' {
      if v == base { DownEdge(ds, us, base, c); }
    }
  }

  function FoundUsrs(found: seq<PossiblePointee>): (us: set<string>)
    ensures forall v :: v in us <==> exists i | 0 <= i < |found| :: found[i].usr == v
  {
    if found == [] then {}
    else
      var last := |found| - 1;
      var before := FoundUsrs(found[..last]);
      assert forall i | 0 <= i < last :: found[..last][i] == found[i];
      before + {found[last].usr}
  }

  /** What has been found so far. */
  ghost predicate Collected(ds: seq<TypeDeclaration>, us: seq<TypeUsage>, root: string, found: seq<PossiblePointee>,
                            seen: set<string>) {
    && found != []
    && seen == FoundUsrs(found)
    && (forall i, j | 0 <= i < j < |found| :: found[i].usr != found[j].usr)
    && (forall i | 0 <= i < |found| :: AtOrBelow(ds, us, root, found[i].usr))
    && (forall i | 1 <= i < |found| :: exists d | d in ds :: d.usr == found[i].usr && d.name == found[i].name)
    && root in seen
  }

  /** What adding to the frontier may do. */
  ghost predicate Grew(seen: set<string>, frontier: seq<string>, seen': set<string>, frontier': seq<string>) {
    && seen <= seen' && frontier <= frontier'
    && (forall v | v in seen' - seen :: v in frontier')
    && (forall v | v in frontier' :: v in frontier || v in seen')
    && (seen' == seen ==> frontier' == frontier)
  }

  lemma GrewMore(seen: set<string>, frontier: seq<string>, seen': set<string>, frontier': seq<string>, u: string)
    requires Grew(seen, frontier, seen', frontier') && u !in seen'
    ensures Grew(seen, frontier, seen' + {u}, frontier' + [u])
  {
    assert u in frontier' + [u];
    forall v | v in seen' - seen ensures v in frontier' + [u] { assert v in frontier'; }
  }

  lemma CollectedMore(ds: seq<TypeDeclaration>, us: seq<TypeUsage>, root: string, base: string,
                      found: seq<PossiblePointee>,
                      seen: set<string>, d: TypeDeclaration)
    requires Collected(ds, us, root, found, seen) && base in seen && d in Subclasses(ds, us, base) && d.usr !in seen
    ensures Collected(ds, us, root, found + [PossiblePointee(d.usr, d.name)], seen + {d.usr})
    ensures d in ds
  {
    SubclassesByScan(ds, us, base, d);
    BelowStep(ds, us, root, base, d);
    var more := found + [PossiblePointee(d.usr, d.name)];
    assert more[..|found|] == found;
    forall i | 0 <= i < |found| ensures more[i].usr != d.usr { assert found[i].usr in FoundUsrs(found); }
  }

  /** The worklist: what was found, its usrs, and whose subclasses are still to be looked up. */
  datatype Worklist = Worklist(found: seq<PossiblePointee>, seen: set<string>, frontier: seq<string>)

  function AddOne(w: Worklist, d: TypeDeclaration): Worklist {
    if d.usr in w.seen then w
    else Worklist(w.found + [PossiblePointee(d.usr, d.name)], w.seen + {d.usr}, w.frontier + [d.usr])
  }

  function AddEach(w: Worklist, subclasses: seq<TypeDeclaration>): Worklist
    decreases |subclasses|
  {
    if subclasses == [] then w else AddEach(AddOne(w, subclasses[0]), subclasses[1..])
  }

  ghost predicate Good(ds: seq<TypeDeclaration>, us: seq<TypeUsage>, root: string, w: Worklist) {
    Collected(ds, us, root, w.found, w.seen) && w.seen <= {root} + DeclaredUsrs(ds)
  }

  lemma AddedOne(ds: seq<TypeDeclaration>, us: seq<TypeUsage>, root: string, base: string, w: Worklist,
                 start: Worklist, d: TypeDeclaration)
    requires Good(ds, us, root, w) && base in w.seen && d in Subclasses(ds, us, base)
    requires Grew(start.seen, start.frontier, w.seen, w.frontier)
    ensures var r := AddOne(w, d);
            && Good(ds, us, root, r) && Grew(start.seen, start.frontier, r.seen, r.frontier)
            && r.found[0] == w.found[0] && w.seen <= r.seen && d.usr in r.seen
  {
    if d.usr !in w.seen {
      CollectedMore(ds, us, root, base, w.found, w.seen, d);
      GrewMore(start.seen, start.frontier, w.seen, w.frontier, d.usr);
    }
  }

  ghost predicate Advanced(ds: seq<TypeDeclaration>, us: seq<TypeUsage>, root: string, start: Worklist,
                           w: Worklist, r: Worklist) {
    && Good(ds, us, root, r) && Grew(start.seen, start.frontier, r.seen, r.frontier)
    && w.found != [] && r.found[0] == w.found[0] && w.seen <= r.seen
  }

  lemma {:induction false} AddedEach(ds: seq<TypeDeclaration>, us: seq<TypeUsage>, root: string, base: string,
                                     w: Worklist, start: Worklist, subclasses: seq<TypeDeclaration>)
    requires Good(ds, us, root, w) && base in w.seen && forall d | d in subclasses :: d in Subclasses(ds, us, base)
    requires Grew(start.seen, start.frontier, w.seen, w.frontier)
    ensures Advanced(ds, us, root, start, w, AddEach(w, subclasses))
    ensures forall d | d in subclasses :: d.usr in AddEach(w, subclasses).seen
    decreases |subclasses|
  {
    if subclasses != [] {
      var d, rest := subclasses[0], subclasses[1..];
      assert subclasses == [d] + rest;
      assert d in Subclasses(ds, us, base) && (forall e | e in rest :: e in subclasses);
      AddedOne(ds, us, root, base, w, start, d);
      AddedEach(ds, us, root, base, AddOne(w, d), start, rest);
    }
  }

  method AddSubclasses(subclasses: seq<TypeDeclaration>, w: Worklist) returns (r: Worklist)
    ensures r == AddEach(w, subclasses)
  {
    r := w;
    for i := 0 to |subclasses|
      invariant AddEach(r, subclasses[i..]) == AddEach(w, subclasses)
    {
      var d := subclasses[i];
      assert subclasses[i..][0] == d && subclasses[i..][1..] == subclasses[i + 1..];
      if d.usr !in r.seen {
        r := Worklist(r.found + [PossiblePointee(d.usr, d.name)], r.seen + {d.usr}, r.frontier + [d.usr]);
      }
    }
    assert subclasses[|subclasses|..] == [];
  }

  /** One round of the walk: a class off the frontier, its subclasses on. */
  lemma Round(ds: seq<TypeDeclaration>, us: seq<TypeUsage>, root: PossiblePointee, w: Worklist)
    requires Walking(ds, us, root, w) && w.frontier != []
    ensures var base := w.frontier[|w.frontier| - 1];
            var r := AddEach(w.(frontier := w.frontier[..|w.frontier| - 1]), Subclasses(ds, us, base));
            && Walking(ds, us, root, r)
            && (Left(ds, root.usr, r) < Left(ds, root.usr, w)
                || (Left(ds, root.usr, r) == Left(ds, root.usr, w) && |r.frontier| < |w.frontier|))
  {
    var base := w.frontier[|w.frontier| - 1];
    var popped := w.(frontier := w.frontier[..|w.frontier| - 1]);
    AddedEach(ds, us, root.usr, base, popped, popped, Subclasses(ds, us, base));
    var r := AddEach(popped, Subclasses(ds, us, base));
    PendingNext(ds, us, w.seen, w.frontier, base, r.seen, r.frontier);
    var universe := {root.usr} + DeclaredUsrs(ds);
    if r.seen != w.seen { ShrinkingSet(universe - r.seen, universe - w.seen); }
  }

  function DeclaredUsrs(ds: seq<TypeDeclaration>): set<string> {
    set d | d in ds :: d.usr
  }

  /** With nothing pending, everything at or below the root has been found. */
  lemma NothingPending(ds: seq<TypeDeclaration>, us: seq<TypeUsage>, root: string, found: seq<PossiblePointee>,
                       seen: set<string>, v: string)
    requires Collected(ds, us, root, found, seen) && Pending(ds, us, seen, [])
    ensures (exists i | 0 <= i < |found| :: found[i].usr == v) <==> AtOrBelow(ds, us, root, v)
  {
    DownIsUpReversed(ds, us, root, v);
    if Reaches(Down(ds, us), root, v) {
      var p :| PathFromTo(Down(ds, us), p, root, v);
      ClosedHoldsReachable(Down(ds, us), seen, root, p, v);
    }
    assert v in seen <==> v in FoundUsrs(found);
  }

  lemma BelowStep(ds: seq<TypeDeclaration>, us: seq<TypeUsage>, root: string, base: string, d: TypeDeclaration)
    requires AtOrBelow(ds, us, root, base) && d in Subclasses(ds, us, base)
    ensures AtOrBelow(ds, us, root, d.usr)
  {
    DownEdge(ds, us, base, d.usr);
    EdgeReaches(Up(ds, us), d.usr, base);
    if base != root { ReachesTransitive(Up(ds, us), d.usr, base, root); }
  }
}
