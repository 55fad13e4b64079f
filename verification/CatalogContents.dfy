/**
 What each catalog lists, said of the entries themselves: which of them are the
 same thing, which one stands for it, and in what order.
 */
module CatalogContents {
  import opened Wrappers
  import opened Dedup
  import opened Catalogs

  /** `k`-th of the result: the first place of its like and the place it was taken from. */
  ghost predicate StandsFor<T>(same: (T, T) -> bool, defines: T -> bool, xs: seq<T>, e: T, first: nat, taken: nat) {
    && first < |xs| && taken < |xs| && xs[taken] == e && same(xs[first], e)
    && (forall j | 0 <= j < first :: !same(xs[j], e))
    && forall j | 0 <= j < |xs| && same(xs[j], e) ::
         if defines(e) then defines(xs[j]) ==> taken <= j else !defines(xs[j]) && taken <= j
  }

  ghost predicate ListsBy<T>(same: (T, T) -> bool, defines: T -> bool, xs: seq<T>, r: seq<T>, first: seq<nat>,
                             taken: seq<nat>) {
    && |first| == |taken| == |r|
    && (forall k | 0 <= k < |r| :: StandsFor(same, defines, xs, r[k], first[k], taken[k]))
    && (forall k, l | 0 <= k < l < |r| :: first[k] < first[l] && !same(r[k], r[l]))
    && forall j | 0 <= j < |xs| :: exists k | 0 <= k < |r| :: same(xs[j], r[k])
  }

  /** One entry for each thing, in order of first mention: the first that defines it, or failing any
      the first that mentions it. */
  ghost predicate Lists<T>(same: (T, T) -> bool, defines: T -> bool, xs: seq<T>, r: seq<T>) {
    exists first, taken :: ListsBy(same, defines, xs, r, first, taken)
  }

  /** The kind tells apart exactly what is not the same. */
  ghost predicate Agrees<T, K>(kind: Kind<T, K>, same: (T, T) -> bool, defines: T -> bool, xs: seq<T>) {
    && (forall x, y | x in xs && y in xs :: kind.id(x) == kind.id(y) <==> same(x, y))
    && forall x | x in xs :: kind.defined(x) <==> defines(x)
  }

  lemma EntryStandsFor<T, K>(kind: Kind<T, K>, same: (T, T) -> bool, defines: T -> bool, xs: seq<T>, e: T, first: nat,
                             taken: nat)
    requires Agrees(kind, same, defines, xs) && Entry(kind, xs, e, first, taken)
    ensures StandsFor(same, defines, xs, e, first, taken)
  {
    assert e in xs;
    forall j | 0 <= j < |xs| ensures kind.id(xs[j]) == kind.id(e) <==> same(xs[j], e) { assert xs[j] in xs; }
    forall j | 0 <= j < |xs| ensures kind.defined(xs[j]) <==> defines(xs[j]) { assert xs[j] in xs; }
  }

  lemma PassLists<T, K>(kind: Kind<T, K>, same: (T, T) -> bool, defines: T -> bool, xs: seq<T>)
    requires Agrees(kind, same, defines, xs)
    ensures Lists(same, defines, xs, Pass(kind, [], xs))
  {
    PassSelects(kind, xs);
    var r := Pass(kind, [], xs);
    var first, rep :| Explains(kind, xs, r, first, rep);
    forall k | 0 <= k < |r| ensures StandsFor(same, defines, xs, r[k], first[k], rep[k]) {
      assert Entry(kind, xs, r[k], first[k], rep[k]);
      EntryStandsFor(kind, same, defines, xs, r[k], first[k], rep[k]);
    }
    forall k, l | 0 <= k < l < |r| ensures first[k] < first[l] && !same(r[k], r[l]) {
      assert StandsFor(same, defines, xs, r[k], first[k], rep[k]);
      assert StandsFor(same, defines, xs, r[l], first[l], rep[l]);
      assert r[k] in xs && r[l] in xs;
    }
    forall j | 0 <= j < |xs| ensures exists k | 0 <= k < |r| :: same(xs[j], r[k]) {
      Covered(kind, same, defines, xs, r, first, rep, j);
    }
    assert ListsBy(same, defines, xs, r, first, rep);
  }

  lemma Covered<T, K>(kind: Kind<T, K>, same: (T, T) -> bool, defines: T -> bool, xs: seq<T>, r: seq<T>,
                      first: seq<nat>, rep: seq<nat>, j: nat)
    requires Agrees(kind, same, defines, xs) && Explains(kind, xs, r, first, rep) && j < |xs|
    ensures exists k | 0 <= k < |r| :: same(xs[j], r[k])
  {
    var f := Find(kind, r, kind.id(xs[j]));
    assert Entry(kind, xs, r[f.value], first[f.value], rep[f.value]);
    assert xs[j] in xs && r[f.value] in xs;
  }

  // ----- which entries are the same -----

  /** Entries with a usr are told apart by it, the others by their position. */
  predicate SameBy(usr1: string, position1: string, usr2: string, position2: string) {
    if usr1 == "" && usr2 == "" then position1 == position2 else usr1 == usr2
  }

  predicate SameFunctionEntry(d: FunctionDeclaration, e: FunctionDeclaration) {
    SameBy(d.usr, d.position, e.usr, e.position)
  }

  predicate HasDefinition(d: FunctionDeclaration) {
    d.hasDefinition
  }

  predicate SameType(d: TypeDeclaration, e: TypeDeclaration) {
    SameBy(d.usr, d.position, e.usr, e.position)
  }

  predicate SamePointer(p: PointerDeclaration, q: PointerDeclaration) {
    SameBy(p.usr, p.position, q.usr, q.position)
  }

  ghost predicate SameEntry<T(!new)>(x: T, y: T) {
    x == y
  }

  predicate NeverDefines<T>(x: T) {
    false
  }

  /** A position is never spelled like a usr (`pos:…` and `c:…`), nor empty. */
  predicate PositionText(s: string) {
    |s| >= 4 && s[..4] == "pos:"
  }

  predicate Placed(usr: string, position: string) {
    PositionText(position) && !PositionText(usr)
  }

  /** The function declarations the workers' streams are joined to. */
  lemma FunctionsListed(xs: seq<FunctionDeclaration>)
    requires forall d | d in xs :: Placed(d.usr, d.position)
    ensures Lists(SameFunctionEntry, HasDefinition, xs, Pass(FunctionKind(), [], xs))
  {
    PassLists(FunctionKind(), SameFunctionEntry, HasDefinition, xs);
  }

  lemma TypesListed(xs: seq<TypeDeclaration>)
    requires forall d | d in xs :: Placed(d.usr, d.position)
    ensures Lists(SameType, NeverDefines, xs, Pass(TypeKind(), [], xs))
  {
    PassLists(TypeKind(), SameType, NeverDefines, xs);
  }

  lemma PointersListed(xs: seq<PointerDeclaration>)
    requires forall p | p in xs :: Placed(p.usr, p.position)
    ensures Lists(SamePointer, NeverDefines, xs, Pass(PointerKind(), [], xs))
  {
    PassLists(PointerKind(), SamePointer, NeverDefines, xs);
  }

  /** Calls, usages and dependencies are the same only if equal. */
  lemma WholesListed<T(!new)>(xs: seq<T>)
    ensures Lists(SameEntry, NeverDefines, xs, Pass(WholeKind<T>(), [], xs))
  {
    PassLists(WholeKind<T>(), SameEntry, NeverDefines, xs);
  }
}
