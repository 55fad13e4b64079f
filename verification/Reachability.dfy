/**
 Which classes a class inherits from: the transitive closure of the base edges,
 and the depth-first search that computes it on any graph, cycles included.
 */
module Reachability {
  import opened Wrappers
  import opened Ir

  /** From a class to its direct bases, in order. */
  type Graph = map<string, seq<string>>

  ghost predicate Edge(g: Graph, a: string, b: string) {
    a in g && b in g[a]
  }

  ghost predicate IsPath(g: Graph, p: seq<string>) {
    forall i | 0 <= i < |p| - 1 :: Edge(g, p[i], p[i + 1])
  }

  ghost predicate PathFromTo(g: Graph, p: seq<string>, a: string, b: string) {
    |p| >= 2 && p[0] == a && p[|p| - 1] == b && IsPath(g, p)
  }

  /** By one or more base edges. */
  ghost predicate Reaches(g: Graph, a: string, b: string) {
    exists p :: PathFromTo(g, p, a, b)
  }

  lemma EdgeReaches(g: Graph, a: string, b: string)
    requires Edge(g, a, b)
    ensures Reaches(g, a, b)
  {
    assert PathFromTo(g, [a, b], a, b);
  }

  lemma ReachesTransitive(g: Graph, a: string, b: string, c: string)
    requires Reaches(g, a, b) && Reaches(g, b, c)
    ensures Reaches(g, a, c)
  {
    var p :| PathFromTo(g, p, a, b);
    var q :| PathFromTo(g, q, b, c);
    var pq := p + q[1..];
    forall i | 0 <= i < |pq| - 1 ensures Edge(g, pq[i], pq[i + 1]) {
      if i < |p| - 1 {
        assert Edge(g, p[i], p[i + 1]);
      } else {
        assert Edge(g, q[i - |p| + 1], q[i - |p| + 2]);
      }
    }
    assert PathFromTo(g, pq, a, c);
  }

  /** A set holding a class's bases and closed under base edges holds all it reaches. */
  lemma ClosedHoldsReachable(g: Graph, s: set<string>, a: string, p: seq<string>, b: string)
    requires PathFromTo(g, p, a, b)
    requires forall c | Edge(g, a, c) :: c in s
    requires forall v, c | v in s && Edge(g, v, c) :: c in s
    ensures b in s
    decreases |p|
  {
    assert Edge(g, p[0], p[1]);
    if |p| > 2 {
      var q := p[1..];
      forall i | 0 <= i < |q| - 1 ensures Edge(g, q[i], q[i + 1]) {
        assert Edge(g, p[i + 1], p[i + 2]);
      }
      ClosedHoldsReachable(g, s, p[1], q, b);
    }
  }

  function Targets(g: Graph): set<string> {
    set a, i | a in g && 0 <= i < |g[a]| :: g[a][i]
  }

  /** Adds everything `usr` reaches to `seen`, never entering a class twice. */
  method Visit(g: Graph, usr: string, seen: set<string>) returns (found: set<string>)
    requires seen <= Targets(g)
    ensures seen <= found <= Targets(g)
    ensures forall v | v in found - seen :: Reaches(g, usr, v)
    ensures forall c | Edge(g, usr, c) :: c in found
    ensures forall v, c | v in found - seen && Edge(g, v, c) :: c in found
    decreases |Targets(g) - seen|
  {
    found := seen;
    if usr !in g {
      return;
    }
    var bases := g[usr];
    for i := 0 to |bases|
      invariant seen <= found <= Targets(g)
      invariant forall v | v in found - seen :: Reaches(g, usr, v)
      invariant forall k | 0 <= k < i :: bases[k] in found
      invariant forall v, c | v in found - seen && Edge(g, v, c) :: c in found
    {
      var base := bases[i];
      EdgeReaches(g, usr, base);
      if base !in found {
        ghost var before := found;
        found := found + {base};
        assert base in Targets(g);
        assert Targets(g) - found < Targets(g) - seen;
        ShrinkingSet(Targets(g) - found, Targets(g) - seen);
        found := Visit(g, base, found);
        forall v | v in found - seen ensures Reaches(g, usr, v) {
          if v !in before && v != base { ReachesTransitive(g, usr, base, v); }
        }
      }
    }
  }

  lemma ShrinkingSet(a: set<string>, b: set<string>)
    requires a < b
    ensures |a| < |b|
  {
    var x :| x in b && x !in a;
    assert a <= b - {x};
    Subset(a, b - {x});
  }

  lemma Subset(a: set<string>, b: set<string>)
    requires a <= b
    ensures |a| <= |b|
  {
    if a != {} {
      var x :| x in a;
      Subset(a - {x}, b - {x});
    }
  }

  /** The base edges of a record list; of two records with one usr the later counts. */
  function BaseGraph(records: seq<Record>): Graph {
    if records == [] then map[]
    else
      var r := records[|records| - 1];
      BaseGraph(records[..|records| - 1])[r.usr := BaseUsrs(r.Bases())]
  }

  function BaseUsrs(bases: seq<BaseClass>): (usrs: seq<string>)
    ensures |usrs| == |bases|
    ensures forall i | 0 <= i < |bases| :: usrs[i] == bases[i].usr
  {
    seq(|bases|, i requires 0 <= i < |bases| => bases[i].usr)
  }

  /** The last record of usr `a` has a base or mixin of usr `b`. */
  ghost predicate HasBase(records: seq<Record>, a: string, b: string) {
    exists i | 0 <= i < |records| && records[i].usr == a && (forall j | i < j < |records| :: records[j].usr != a) ::
      || (records[i].baseClass.Some? && records[i].baseClass.value.usr == b)
      || exists m | m in records[i].mixins :: m.usr == b
  }

  lemma {:induction false} EdgesAreBases(records: seq<Record>, a: string, b: string)
    ensures Edge(BaseGraph(records), a, b) <==> HasBase(records, a, b)
    decreases |records|
  {
    if records != [] {
      var last := |records| - 1;
      var r := records[last];
      if r.usr == a {
        OwnBases(r, b);
        assert BaseGraph(records)[a] == BaseUsrs(r.Bases());
      } else {
        EdgesAreBases(records[..last], a, b);
        if HasBase(records[..last], a, b) {
          var i :| 0 <= i < last && records[..last][i].usr == a
                   && (forall j | i < j < last :: records[..last][j].usr != a)
                   && ((records[..last][i].baseClass.Some? && records[..last][i].baseClass.value.usr == b)
                       || exists m | m in records[..last][i].mixins :: m.usr == b);
          assert records[i].usr == a;
          assert forall j | i < j < last :: records[j] == records[..last][j];
        }
      }
    }
  }

  lemma OwnBases(r: Record, b: string)
    ensures b in BaseUsrs(r.Bases())
       <==> (r.baseClass.Some? && r.baseClass.value.usr == b) || exists m | m in r.mixins :: m.usr == b
  {
    var usrs, first := BaseUsrs(r.Bases()), if r.baseClass.Some? then 1 else 0;
    forall m | m in r.mixins ensures m.usr in usrs {
      var k :| 0 <= k < |r.mixins| && r.mixins[k] == m;
      assert usrs[first + k] == m.usr;
    }
    if r.baseClass.Some? { assert usrs[0] == r.baseClass.value.usr; }
    if b in usrs {
      var k :| 0 <= k < |usrs| && usrs[k] == b;
      if k >= first { assert r.mixins[k - first] in r.mixins; }
    }
  }

  /** Every record's ancestors. */
  method AncestorClosures(records: seq<Record>) returns (closures: map<string, set<string>>)
    ensures forall u :: u in closures <==> exists i | 0 <= i < |records| :: records[i].usr == u
    ensures forall u, v | u in closures :: v in closures[u] <==> Reaches(BaseGraph(records), u, v)
  {
    var g: Graph := map[];
    for i := 0 to |records|
      invariant g == BaseGraph(records[..i])
    {
      assert records[..i + 1][..i] == records[..i];
      g := g[records[i].usr := BaseUsrs(records[i].Bases())];
    }
    assert records[..|records|] == records;
    closures := map[];
    for i := 0 to |records|
      invariant forall u :: u in closures <==> exists k | 0 <= k < i :: records[k].usr == u
      invariant forall u, v | u in closures :: v in closures[u] <==> Reaches(g, u, v)
    {
      var u := records[i].usr;
      var found := Visit(g, u, {});
      forall v ensures v in found <==> Reaches(g, u, v) {
        if Reaches(g, u, v) {
          var p :| PathFromTo(g, p, u, v);
          ClosedHoldsReachable(g, found, u, p, v);
        }
      }
      closures := closures[u := found];
    }
  }

  // ----- closing over several starts -----

  /** One of the starts, or reached from one. */
  ghost predicate FromSome(g: Graph, starts: seq<string>, u: string) {
    u in starts || exists a :: a in starts && Reaches(g, a, u)
  }

  lemma FromSomeStep(g: Graph, starts: seq<string>, u: string, c: string)
    requires FromSome(g, starts, u) && Edge(g, u, c)
    ensures FromSome(g, starts, c)
  {
    EdgeReaches(g, u, c);
    if u !in starts {
      var a :| a in starts && Reaches(g, a, u);
      ReachesTransitive(g, a, u, c);
    }
  }

  lemma ClosedHoldsFromSome(g: Graph, starts: seq<string>, s: set<string>, u: string)
    requires FromSome(g, starts, u) && forall v | v in starts :: v in s
    requires forall v, c | v in s && Edge(g, v, c) :: c in s
    ensures u in s
  {
    if u !in starts {
      var a :| a in starts && Reaches(g, a, u);
      var p :| PathFromTo(g, p, a, u);
      ClosedHoldsReachable(g, s, a, p, u);
    }
  }

  ghost predicate AllFromSome(g: Graph, starts: seq<string>, us: seq<string>) {
    forall u | u in us :: FromSome(g, starts, u)
  }

  ghost function Universe(g: Graph, starts: seq<string>): set<string> {
    (set u | u in starts) + Targets(g)
  }

  lemma FromSomeInUniverse(g: Graph, starts: seq<string>, u: string)
    requires FromSome(g, starts, u)
    ensures u in Universe(g, starts)
  {
    if u !in starts {
      var a :| a in starts && Reaches(g, a, u);
      var p :| PathFromTo(g, p, a, u);
      assert Edge(g, p[|p| - 2], p[|p| - 1]);
    }
  }

  /** Depth first from a stack of starts, cycles or not. */
  method CloseOver(g: Graph, starts: seq<string>) returns (found: set<string>)
    ensures forall u :: u in found <==> FromSome(g, starts, u)
  {
    found := {};
    var stack := starts;
    while stack != []
      invariant AllFromSome(g, starts, stack) && forall u | u in found :: FromSome(g, starts, u)
      invariant found <= Universe(g, starts)
      invariant forall u | u in starts :: u in found || u in stack
      invariant forall v, c | v in found && Edge(g, v, c) :: c in found || c in stack
      decreases |Universe(g, starts) - found|, |stack|
    {
      var u := stack[|stack| - 1];
      ghost var before := stack;
      stack := stack[..|stack| - 1];
      assert before == stack + [u];
      assert u in before;
      if u !in found {
        FromSomeInUniverse(g, starts, u);
        ShrinkingSet(Universe(g, starts) - (found + {u}), Universe(g, starts) - found);
        found := found + {u};
        if u in g {
          forall c | c in g[u] ensures FromSome(g, starts, c) { FromSomeStep(g, starts, u, c); }
          stack := stack + g[u];
        }
      }
    }
    forall u ensures u in found <==> FromSome(g, starts, u) {
      if FromSome(g, starts, u) { ClosedHoldsFromSome(g, starts, found, u); }
    }
  }
}
