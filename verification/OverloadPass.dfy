/**
 The overload pass as a whole: the parameters of every function and method are
 read off the module, the names computed, and declarations and calls respelled.
 */
module OverloadPass {
  import opened Wrappers
  import opened Ir
  import opened CallNames
  import opened Renames
  import opened Overloads
  import opened OverloadNames

  // ----- the parameters by usr -----

  ghost predicate LastFunction(fs: seq<Function>, usr: string, k: int) {
    0 <= k < |fs| && fs[k].usr == usr && forall j | k < j < |fs| :: fs[j].usr != usr
  }

  /** Of two functions with one usr the later counts. */
  ghost predicate FunctionParams(fs: seq<Function>, m: map<string, seq<Param>>) {
    && (forall u :: u in m <==> exists k :: LastFunction(fs, u, k))
    && (forall u, k | LastFunction(fs, u, k) :: m[u] == fs[k].params)
  }

  lemma OneMoreFunction(fs: seq<Function>, k: nat, m: map<string, seq<Param>>)
    requires k < |fs| && FunctionParams(fs[..k], m)
    ensures FunctionParams(fs[..k + 1], m[fs[k].usr := fs[k].params])
  {
    var x, now, was := fs[k], fs[..k + 1], fs[..k];
    forall u, j ensures LastFunction(now, u, j) <==> if x.usr == u then j == k else LastFunction(was, u, j) {
      assert forall i | 0 <= i < k :: now[i] == was[i];
      if LastFunction(now, u, j) && j < k { assert now[k] == x; }
    }
    assert LastFunction(now, x.usr, k);
  }

  /** Method `j` of record `i`, among the first `n` records and the first `m` methods of the next. */
  predicate Within(rs: seq<Record>, n: int, m: int, i: int, j: int) {
    0 <= i < |rs| && 0 <= j < |rs[i].methods| && (i < n || (i == n && j < m))
  }

  ghost predicate LastMethod(rs: seq<Record>, n: int, m: int, usr: string, i: int, j: int) {
    && Within(rs, n, m, i, j) && rs[i].methods[j].usr == usr
    && forall k, l | Within(rs, n, m, k, l) && (k > i || (k == i && l > j)) :: rs[k].methods[l].usr != usr
  }

  /** Of two methods with one usr the one in the later record, or later in its record, counts. */
  ghost predicate MethodParams(rs: seq<Record>, n: int, m: int, params: map<string, seq<Param>>) {
    && (forall u :: u in params <==> exists i, j :: LastMethod(rs, n, m, u, i, j))
    && (forall u, i, j | LastMethod(rs, n, m, u, i, j) :: params[u] == rs[i].methods[j].params)
  }

  lemma LastWithOneMore(rs: seq<Record>, n: nat, m: nat, u: string, i: int, j: int)
    requires n < |rs| && m < |rs[n].methods|
    ensures LastMethod(rs, n, m + 1, u, i, j)
       <==> if rs[n].methods[m].usr == u then i == n && j == m else LastMethod(rs, n, m, u, i, j)
  {
    assert Within(rs, n, m + 1, n, m);
    assert forall k, l :: Within(rs, n, m + 1, k, l) <==> Within(rs, n, m, k, l) || (k == n && l == m);
  }

  lemma OneMoreMethod(rs: seq<Record>, n: nat, m: nat, params: map<string, seq<Param>>)
    requires n < |rs| && m < |rs[n].methods| && MethodParams(rs, n, m, params)
    ensures MethodParams(rs, n, m + 1, params[rs[n].methods[m].usr := rs[n].methods[m].params])
  {
    forall u, i, j
      ensures LastMethod(rs, n, m + 1, u, i, j)
         <==> if rs[n].methods[m].usr == u then i == n && j == m else LastMethod(rs, n, m, u, i, j)
    {
      LastWithOneMore(rs, n, m, u, i, j);
    }
    var now := params[rs[n].methods[m].usr := rs[n].methods[m].params];
    assert LastMethod(rs, n, m + 1, rs[n].methods[m].usr, n, m);
    var next := m + 1;
    forall u | u in params && u != rs[n].methods[m].usr ensures exists i, j :: LastMethod(rs, n, next, u, i, j) {
      var i, j :| LastMethod(rs, n, m, u, i, j);
      assert LastMethod(rs, n, next, u, i, j);
    }
    forall u, i, j | LastMethod(rs, n, next, u, i, j) ensures u in now && now[u] == rs[i].methods[j].params {
      if u != rs[n].methods[m].usr { assert LastMethod(rs, n, m, u, i, j); }
    }
  }

  lemma NextRecord(rs: seq<Record>, n: nat, params: map<string, seq<Param>>)
    requires n < |rs| && MethodParams(rs, n, |rs[n].methods|, params)
    ensures MethodParams(rs, n + 1, 0, params)
  {
    assert forall k, l :: Within(rs, n + 1, 0, k, l) <==> Within(rs, n, |rs[n].methods|, k, l);
    var m, next := |rs[n].methods|, n + 1;
    forall u, i, j ensures LastMethod(rs, next, 0, u, i, j) <==> LastMethod(rs, n, m, u, i, j) {
    }
    forall u | u in params ensures exists i, j :: LastMethod(rs, next, 0, u, i, j) {
      var i, j :| LastMethod(rs, n, m, u, i, j);
      assert LastMethod(rs, next, 0, u, i, j);
    }
    forall u, i, j | LastMethod(rs, next, 0, u, i, j) ensures u in params && params[u] == rs[i].methods[j].params {
      assert LastMethod(rs, n, m, u, i, j);
    }
  }

  ghost predicate FactsOf(all: seq<Declaration>, fs: seq<Function>, rs: seq<Record>, f: Facts) {
    f.all == all && f.records == rs && FunctionParams(fs, f.functionParams) && MethodParams(rs, |rs|, 0, f.methodParams)
  }

  method GatherFunctions(fs: seq<Function>) returns (m: map<string, seq<Param>>)
    ensures FunctionParams(fs, m)
  {
    m := map[];
    for k := 0 to |fs|
      invariant FunctionParams(fs[..k], m)
    {
      OneMoreFunction(fs, k, m);
      m := m[fs[k].usr := fs[k].params];
    }
    assert fs[..|fs|] == fs;
  }

  method GatherMethods(rs: seq<Record>) returns (params: map<string, seq<Param>>)
    ensures MethodParams(rs, |rs|, 0, params)
  {
    params := map[];
    for n := 0 to |rs|
      invariant MethodParams(rs, n, 0, params)
    {
      for m := 0 to |rs[n].methods|
        invariant MethodParams(rs, n, m, params)
      {
        OneMoreMethod(rs, n, m, params);
        params := params[rs[n].methods[m].usr := rs[n].methods[m].params];
      }
      NextRecord(rs, n, params);
    }
  }

  method GatherFacts(all: seq<Declaration>, fs: seq<Function>, rs: seq<Record>) returns (f: Facts)
    ensures FactsOf(all, fs, rs, f)
  {
    var functionParams: map<string, seq<Param>> := GatherFunctions(fs);
    var methodParams: map<string, seq<Param>> := GatherMethods(rs);
    f := Facts(all, functionParams, methodParams, rs);
  }

  // ----- the pass -----

  /** The names say of every callable what its declaration says. */
  ghost predicate Declared(all: seq<Declaration>, names: string -> string) {
    forall d | d in all && d.isFreeOrMethod :: names(d.usr) == d.name
  }

  /** They say its signature's name, with its ordinal. */
  ghost predicate FinallyNamed(n: Naming, f: Facts, names: string -> string) {
    forall d | d in f.all && d.isFreeOrMethod :: Numbered(n, f, d, names(d.usr))
  }

  /** The whole pass, in place.  If every walked declaration and call is spelled as `names` says,
      and `names` says what the declarations say, then afterwards every walked declaration and call
      is spelled with the numbered name of its usr's signature, and a call so spelled resolves, by
      name within its callee's group, to its callee and no other member.  Nothing but names changes. */
  method ApplyOverloadRenames(n: Naming, all: seq<Declaration>, functions: array<Function>, records: array<Record>,
                              ghost names: string -> string)
      returns (ghost f: Facts, ghost finals: string -> string)
    requires EachOnce(all) && Declared(all, names) && Consistent(names, functions[..], records[..])
    modifies functions, records
    ensures FactsOf(all, old(functions[..]), old(records[..]), f)
    ensures Consistent(finals, functions[..], records[..])
    ensures FinallyNamed(n, f, finals) && Resolves(n, f, finals)
    ensures SameButNames(old(functions[..]), old(records[..]), functions[..], records[..])
  {
    ghost var fs, rs := functions[..], records[..];
    var facts := GatherFacts(all, functions[..], records[..]);
    f := facts;
    var renames := OverloadRenames(n, facts);
    ApplyRenames(functions, records, renames);
    CallsFollowTheirDeclarations(renames, names, fs, rs, functions[..], records[..]);
    OnlyNamesChange(renames, fs, rs, functions[..], records[..]);
    finals := Renames.Renamed(renames, names);
    NamedFinally(n, f, renames, names);
  }

  lemma NamedFinally(n: Naming, f: Facts, renames: map<string, string>, names: string -> string)
    requires EachOnce(f.all) && Declared(f.all, names)
    requires forall d | d in f.all && d.isFreeOrMethod :: Spelled(renames, d) == Final(n, f, d)
    ensures FinallyNamed(n, f, Renames.Renamed(renames, names)) && Resolves(n, f, Renames.Renamed(renames, names))
  {
    var finals := Renames.Renamed(renames, names);
    forall d | d in f.all && d.isFreeOrMethod
      ensures Numbered(n, f, d, finals(d.usr)) && finals(d.usr) == Final(n, f, d)
    {
      RenamesAreNumbered(n, f, renames, d);
      assert finals(d.usr) == Spelled(renames, d);
    }
    FinalsResolve(n, f, finals);
  }
}
