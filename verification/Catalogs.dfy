/**
 The catalogs the extraction workers fill and the merges that join their parts.
 */
module Catalogs {
  import opened Wrappers
  import opened Dedup
  import opened Strings

  /** `position` is the fallback identity, built from kind, name, file, line and column. */
  datatype FunctionDeclaration = FunctionDeclaration(
    name: string, isFreeOrMethod: bool, owningClassUsr: Option<string>, signature: string,
    file: string, usr: string, position: string, isStatic: bool, hasDefinition: bool)

  datatype Resolution = Resolved(calleeUsr: string, dynamicDispatch: bool) | Unresolved(reason: string)
  datatype CallEdge = CallEdge(callerUsr: string, resolution: Resolution, file: string, line: nat, column: nat)

  datatype TypeDeclaration = TypeDeclaration(name: string, namespace: string, file: string, line: nat, endLine: nat,
                                             usr: string, position: string)
  datatype TypeDependency = TypeDependency(caller: TypeDeclaration, callee: TypeDeclaration)
  datatype TypeUsage = TypeUsage(typeUsr: string, isInheritance: bool, kind: string, file: string, line: nat,
                                 column: nat)

  datatype PointerDeclaration = PointerDeclaration(name: string, pointee: string, usr: string, position: string)

  function FunctionIdentity(d: FunctionDeclaration): string {
    if d.usr != "" then d.usr else d.position
  }

  function TypeIdentity(d: TypeDeclaration): string {
    if d.usr != "" then d.usr else d.position
  }

  function FunctionKind(): Kind<FunctionDeclaration, string> {
    Kind(FunctionIdentity, (d: FunctionDeclaration) => d.hasDefinition)
  }

  function TypeKind(): Kind<TypeDeclaration, string> {
    Kind(TypeIdentity, (d: TypeDeclaration) => false)
  }

  function PointerKind(): Kind<PointerDeclaration, string> {
    Kind((p: PointerDeclaration) => if p.usr != "" then p.usr else p.position, (p: PointerDeclaration) => false)
  }

  /** Entries that are their own identity: calls, usages, dependencies. */
  function WholeKind<T(!new)>(): Kind<T, T> {
    Kind((x: T) => x, (x: T) => false)
  }

  // ----- function declarations and calls -----

  /** Streams of declarations and calls as the workers saw them. */
  datatype FunctionStream = FunctionStream(declarations: seq<FunctionDeclaration>, calls: seq<CallEdge>)

  function Declarations(parts: seq<FunctionStream>): seq<seq<FunctionDeclaration>> {
    if parts == [] then [] else [parts[0].declarations] + Declarations(parts[1..])
  }

  function Calls(parts: seq<FunctionStream>): seq<seq<CallEdge>> {
    if parts == [] then [] else [parts[0].calls] + Calls(parts[1..])
  }

  /** What one worker hands over: its own streams, deduplicated. */
  function LocalFunctions(s: FunctionStream): FunctionStream {
    FunctionStream(Pass(FunctionKind(), [], s.declarations), Pass(WholeKind(), [], s.calls))
  }

  function LocalParts(streams: seq<FunctionStream>): (parts: seq<FunctionStream>)
    ensures Declarations(parts) == Locally(FunctionKind(), Declarations(streams))
    ensures Calls(parts) == Locally(WholeKind(), Calls(streams))
  {
    if streams == [] then []
    else
      var rest := LocalParts(streams[1..]);
      var parts := [LocalFunctions(streams[0])] + rest;
      assert parts[1..] == rest;
      assert Declarations(streams)[1..] == Declarations(streams[1..]) && Calls(streams)[1..] == Calls(streams[1..]);
      parts
  }

  method MergeFunctions(parts: seq<FunctionStream>) returns (merged: FunctionStream)
    ensures merged.declarations == Pass(FunctionKind(), [], Flatten(Declarations(parts)))
    ensures merged.calls == Pass(WholeKind(), [], Flatten(Calls(parts)))
  {
    var declarations := MergeLists(FunctionKind(), Declarations(parts));
    var calls := MergeLists(WholeKind(), Calls(parts));
    merged := FunctionStream(declarations, calls);
  }

  /** However the streams are split over workers, local passes and the merge give what a single
      pass over the concatenated streams gives. */
  method CatalogFunctions(streams: seq<FunctionStream>) returns (catalog: FunctionStream)
    ensures catalog.declarations == Pass(FunctionKind(), [], Flatten(Declarations(streams)))
    ensures catalog.calls == Pass(WholeKind(), [], Flatten(Calls(streams)))
  {
    catalog := MergeFunctions(LocalParts(streams));
    ParallelEqualsSequential(FunctionKind(), [], Declarations(streams));
    ParallelEqualsSequential(WholeKind<CallEdge>(), [], Calls(streams));
  }

  // ----- type declarations, dependencies and usages -----

  /** Declarations and usages of types, however they were split over workers. */
  method CatalogTypes(declarations: seq<seq<TypeDeclaration>>, usages: seq<seq<TypeUsage>>)
      returns (ds: seq<TypeDeclaration>, us: seq<TypeUsage>)
    ensures ds == Pass(TypeKind(), [], Flatten(declarations))
    ensures us == Pass(WholeKind(), [], Flatten(usages))
  {
    ds := MergeLists(TypeKind(), Locally(TypeKind(), declarations));
    us := MergeLists(WholeKind(), Locally(WholeKind(), usages));
    ParallelEqualsSequential(TypeKind(), [], declarations);
    ParallelEqualsSequential(WholeKind<TypeUsage>(), [], usages);
  }

  /** Pointers, likewise. */
  method CatalogPointers(streams: seq<seq<PointerDeclaration>>) returns (pointers: seq<PointerDeclaration>)
    ensures pointers == Pass(PointerKind(), [], Flatten(streams))
  {
    pointers := MergeLists(PointerKind(), Locally(PointerKind(), streams));
    ParallelEqualsSequential(PointerKind(), [], streams);
  }

  function WithoutSelfEdges(ds: seq<TypeDependency>): seq<TypeDependency> {
    if ds == [] then []
    else (if ds[0].caller == ds[0].callee then [] else [ds[0]]) + WithoutSelfEdges(ds[1..])
  }

  function WithoutSelfEdgesEach(chunks: seq<seq<TypeDependency>>): seq<seq<TypeDependency>> {
    if chunks == [] then [] else [WithoutSelfEdges(chunks[0])] + WithoutSelfEdgesEach(chunks[1..])
  }

  ghost predicate NoSelfEdge(ds: seq<TypeDependency>) {
    forall i | 0 <= i < |ds| :: ds[i].caller != ds[i].callee
  }

  lemma WithoutSelfEdgesHasNone(ds: seq<TypeDependency>)
    ensures NoSelfEdge(WithoutSelfEdges(ds))
  {
  }

  lemma NothingToDrop(ds: seq<TypeDependency>)
    requires NoSelfEdge(ds)
    ensures WithoutSelfEdges(ds) == ds
  {
    if ds != [] { NothingToDrop(ds[1..]); assert ds == [ds[0]] + ds[1..]; }
  }

  lemma WithoutSelfEdgesAppend(a: seq<TypeDependency>, b: seq<TypeDependency>)
    ensures WithoutSelfEdges(a + b) == WithoutSelfEdges(a) + WithoutSelfEdges(b)
  {
    if a == [] {
      assert a + b == b;
    } else {
      assert (a + b)[1..] == a[1..] + b;
      WithoutSelfEdgesAppend(a[1..], b);
    }
  }

  lemma {:induction false} PassAddsNoSelfEdge(acc: seq<TypeDependency>, ds: seq<TypeDependency>)
    requires NoSelfEdge(acc) && NoSelfEdge(ds)
    ensures NoSelfEdge(Pass(WholeKind(), acc, ds))
    decreases |ds|
  {
    if ds != [] {
      var next := Push(WholeKind(), acc, ds[0]);
      assert NoSelfEdge(next);
      PassAddsNoSelfEdge(next, ds[1..]);
    }
  }

  /** Every dependency goes through the filter before it is looked up. */
  /** What the loop knows: the list so far, its elements as a set, and that what is left to see
      leads to the whole pass. */
  ghost predicate Merging(merged: seq<TypeDependency>, seen: set<TypeDependency>) {
    Unique(WholeKind<TypeDependency>(), merged) && seen == (set d | d in merged)
  }

  lemma NextDependency(merged: seq<TypeDependency>, seen: set<TypeDependency>, left: seq<TypeDependency>)
    requires Merging(merged, seen) && left != []
    ensures var d := left[0];
            if d.caller == d.callee then WithoutSelfEdges(left) == WithoutSelfEdges(left[1..])
            else
              && WithoutSelfEdges(left) == [d] + WithoutSelfEdges(left[1..])
              && (d in seen ==> Push(WholeKind(), merged, d) == merged)
              && (d !in seen ==> Push(WholeKind(), merged, d) == merged + [d] && Merging(merged + [d], seen + {d}))
  {
    var d := left[0];
    if d.caller != d.callee {
      PushUnique(WholeKind(), merged, d);
      assert Find(WholeKind(), merged, d).None? <==> d !in seen;
    }
  }

  method MergeDependencies(partials: seq<seq<TypeDependency>>) returns (merged: seq<TypeDependency>)
    ensures merged == Pass(WholeKind(), [], WithoutSelfEdges(Flatten(partials)))
  {
    var seen: set<TypeDependency> := {};
    ghost var whole := Pass(WholeKind(), [], WithoutSelfEdges(Flatten(partials)));
    merged := [];
    for p := 0 to |partials|
      invariant Merging(merged, seen)
      invariant Pass(WholeKind(), merged, WithoutSelfEdges(Flatten(partials[p..]))) == whole
    {
      var partial := partials[p];
      assert partials[p..][0] == partial && partials[p..][1..] == partials[p + 1..];
      ghost var rest := WithoutSelfEdges(Flatten(partials[p + 1..]));
      WithoutSelfEdgesAppend(partial, Flatten(partials[p + 1..]));
      PassAppend(WholeKind(), merged, WithoutSelfEdges(partial), rest);
      for i := 0 to |partial|
        invariant Merging(merged, seen)
        invariant Pass(WholeKind(), Pass(WholeKind(), merged, WithoutSelfEdges(partial[i..])), rest) == whole
      {
        var d := partial[i];
        assert partial[i..][0] == d && partial[i..][1..] == partial[i + 1..];
        NextDependency(merged, seen, partial[i..]);
        if d.caller != d.callee {
          assert ([d] + WithoutSelfEdges(partial[i + 1..]))[1..] == WithoutSelfEdges(partial[i + 1..]);
          if d !in seen {
            seen := seen + {d};
            merged := merged + [d];
          }
        }
      }
      assert partial[|partial|..] == [];
    }
    assert partials[|partials|..] == [];
  }

  /** What one worker keeps of its dependency stream. */
  function LocalDependencies(chunks: seq<seq<TypeDependency>>): seq<seq<TypeDependency>> {
    Locally(WholeKind(), WithoutSelfEdgesEach(chunks))
  }

  lemma {:induction false} FilterOfFlatten(chunks: seq<seq<TypeDependency>>)
    ensures WithoutSelfEdges(Flatten(chunks)) == Flatten(WithoutSelfEdgesEach(chunks))
    ensures NoSelfEdge(Flatten(LocalDependencies(chunks)))
    decreases |chunks|
  {
    if chunks != [] {
      var rest := chunks[1..];
      FilterOfFlatten(rest);
      WithoutSelfEdgesAppend(chunks[0], Flatten(rest));
      assert WithoutSelfEdgesEach(chunks)[1..] == WithoutSelfEdgesEach(rest);
      WithoutSelfEdgesHasNone(chunks[0]);
      PassAddsNoSelfEdge([], WithoutSelfEdges(chunks[0]));
      assert LocalDependencies(chunks)[1..] == LocalDependencies(rest);
    }
  }

  /** The dependency graph does not depend on how the work was split either. */
  lemma DependenciesAgree(chunks: seq<seq<TypeDependency>>)
    ensures Pass(WholeKind(), [], WithoutSelfEdges(Flatten(LocalDependencies(chunks))))
         == Pass(WholeKind(), [], WithoutSelfEdges(Flatten(chunks)))
    ensures NoSelfEdge(Pass(WholeKind(), [], WithoutSelfEdges(Flatten(chunks))))
  {
    FilterOfFlatten(chunks);
    NothingToDrop(Flatten(LocalDependencies(chunks)));
    ParallelEqualsSequential(WholeKind<TypeDependency>(), [], WithoutSelfEdgesEach(chunks));
    WithoutSelfEdgesHasNone(Flatten(chunks));
    PassAddsNoSelfEdge([], WithoutSelfEdges(Flatten(chunks)));
  }

  // ----- source files -----

  datatype SourceFile = SourceFile(path: string, isTranslationUnit: bool)

  ghost predicate SortedByPath(files: seq<SourceFile>) {
    SortedBy((f: SourceFile) => f.path, files)
  }

  /** A file is listed once, as a translation unit if it is compiled itself, else as a header. */
  ghost predicate ListsExactly(files: seq<SourceFile>, units: set<string>, headers: set<string>) {
    && SortedByPath(files)
    && (forall f :: f in files <==> if f.isTranslationUnit then f.path in units else f.path in headers - units)
  }

  method FinishSourceFiles(units: set<string>, headers: set<string>) returns (files: seq<SourceFile>)
    ensures ListsExactly(files, units, headers)
  {
    var remaining := headers;
    var todo := units;
    while todo != {}
      invariant todo <= units && remaining == headers - (units - todo)
      decreases |todo|
    {
      var unit :| unit in todo;
      remaining := remaining - {unit};
      todo := todo - {unit};
    }
    files := [];
    todo := units;
    while todo != {}
      invariant todo <= units && SortedByPath(files)
      invariant forall f :: f in files <==> f.isTranslationUnit && f.path in units - todo
      decreases |todo|
    {
      var path :| path in todo;
      files := InsertSorted((f: SourceFile) => f.path, files, SourceFile(path, true));
      todo := todo - {path};
    }
    todo := remaining;
    while todo != {}
      invariant todo <= remaining && SortedByPath(files)
      invariant forall f :: f in files <==> if f.isTranslationUnit then f.path in units else f.path in remaining - todo
      decreases |todo|
    {
      var path :| path in todo;
      files := InsertSorted((f: SourceFile) => f.path, files, SourceFile(path, false));
      todo := todo - {path};
    }
  }

  /** The list is determined by the two sets, so every schedule yields exactly the same one. */
  lemma SourceFilesDetermined(a: seq<SourceFile>, b: seq<SourceFile>, units: set<string>, headers: set<string>)
    requires ListsExactly(a, units, headers) && ListsExactly(b, units, headers)
    ensures a == b
  {
    SortedDetermined((f: SourceFile) => f.path, a, b);
  }
}
