/**
 Deduplication by identity, with an entry upgraded in place when a better one
 with the same identity turns up: once per worker, then once more across the
 workers' results, with the same outcome as one pass over everything.
 */
module Dedup {
  import opened Wrappers

  /** How entries are told apart, and which ones are definitions. */
  datatype Kind<!T, !K> = Kind(id: T -> K, defined: T -> bool)

  function Find<T, K(==)>(kind: Kind<T, K>, acc: seq<T>, k: K): (i: Option<nat>)
    ensures i.Some? ==> i.value < |acc| && kind.id(acc[i.value]) == k
    ensures i.Some? ==> forall j | 0 <= j < i.value :: kind.id(acc[j]) != k
    ensures i.None? ==> forall j | 0 <= j < |acc| :: kind.id(acc[j]) != k
  {
    if acc == [] then None
    else if kind.id(acc[0]) == k then Some(0)
    else match Find(kind, acc[1..], k)
      case None => None
      case Some(i) => Some(i + 1)
  }

  /** One entry at a time: appended if new, upgraded if it is the first definition. */
  function Push<T, K(==)>(kind: Kind<T, K>, acc: seq<T>, x: T): seq<T> {
    match Find(kind, acc, kind.id(x))
    case None => acc + [x]
    case Some(i) => if !kind.defined(acc[i]) && kind.defined(x) then acc[i := x] else acc
  }

  function Pass<T, K(==)>(kind: Kind<T, K>, acc: seq<T>, xs: seq<T>): seq<T>
    decreases |xs|
  {
    if xs == [] then acc else Pass(kind, Push(kind, acc, xs[0]), xs[1..])
  }

  function Flatten<T>(chunks: seq<seq<T>>): seq<T> {
    if chunks == [] then [] else chunks[0] + Flatten(chunks[1..])
  }

  function Locally<T, K(==)>(kind: Kind<T, K>, chunks: seq<seq<T>>): seq<seq<T>> {
    if chunks == [] then [] else [Pass(kind, [], chunks[0])] + Locally(kind, chunks[1..])
  }

  ghost predicate Unique<T, K>(kind: Kind<T, K>, acc: seq<T>) {
    forall i, j | 0 <= i < j < |acc| :: kind.id(acc[i]) != kind.id(acc[j])
  }

  lemma {:induction false} PassAppend<T, K>(kind: Kind<T, K>, acc: seq<T>, a: seq<T>, b: seq<T>)
    ensures Pass(kind, acc, a + b) == Pass(kind, Pass(kind, acc, a), b)
    decreases |a|
  {
    if a == [] {
      assert a + b == b;
    } else {
      assert (a + b)[1..] == a[1..] + b;
      PassAppend(kind, Push(kind, acc, a[0]), a[1..], b);
    }
  }

  lemma FindAt<T, K>(kind: Kind<T, K>, acc: seq<T>, i: nat)
    requires Unique(kind, acc) && i < |acc|
    ensures Find(kind, acc, kind.id(acc[i])) == Some(i)
  {
  }

  lemma PushUnique<T, K>(kind: Kind<T, K>, acc: seq<T>, x: T)
    requires Unique(kind, acc)
    ensures Unique(kind, Push(kind, acc, x))
  {
  }

  lemma {:induction false} PassUnique<T, K>(kind: Kind<T, K>, acc: seq<T>, xs: seq<T>)
    requires Unique(kind, acc)
    ensures Unique(kind, Pass(kind, acc, xs))
    decreases |xs|
  {
    if xs != [] {
      PushUnique(kind, acc, xs[0]);
      PassUnique(kind, Push(kind, acc, xs[0]), xs[1..]);
    }
  }

  // ----- replaying a deduplicated list -----

  /** Pushing `y` disturbs neither where another identity is found nor what is found there. */
  lemma FindAfterPush<T, K>(kind: Kind<T, K>, acc: seq<T>, y: T, k: K)
    requires Unique(kind, acc) && k != kind.id(y)
    ensures Find(kind, Push(kind, acc, y), k) == Find(kind, acc, k)
    ensures Find(kind, acc, k).Some? ==> Push(kind, acc, y)[Find(kind, acc, k).value] == acc[Find(kind, acc, k).value]
  {
    PushUnique(kind, acc, y);
    var after := Push(kind, acc, y);
    match Find(kind, acc, k) {
      case Some(i) => assert after[i] == acc[i]; FindAt(kind, after, i);
      case None =>
        forall j | 0 <= j < |after| ensures kind.id(after[j]) != k {
          if j < |acc| { assert kind.id(after[j]) == kind.id(acc[j]); }
        }
    }
  }

  /** The better of an entry and another one of its identity. */
  function Better<T, K>(kind: Kind<T, K>, held: T, x: T): T {
    if !kind.defined(held) && kind.defined(x) then x else held
  }

  lemma PushAt<T, K>(kind: Kind<T, K>, acc: seq<T>, x: T, i: nat)
    requires Find(kind, acc, kind.id(x)) == Some(i)
    ensures Push(kind, acc, x) == acc[i := Better(kind, acc[i], x)]
  {
  }

  /** Entries of different identity commute once the first identity is known. */
  lemma PushesCommute<T, K>(kind: Kind<T, K>, acc: seq<T>, x: T, y: T)
    requires Unique(kind, acc) && kind.id(x) != kind.id(y) && Find(kind, acc, kind.id(x)).Some?
    ensures Push(kind, Push(kind, acc, x), y) == Push(kind, Push(kind, acc, y), x)
  {
    FindAfterPush(kind, acc, x, kind.id(y));
    FindAfterPush(kind, acc, y, kind.id(x));
    var i := Find(kind, acc, kind.id(x)).value;
    var x' := Better(kind, acc[i], x);
    PushAt(kind, acc, x, i);
    PushAt(kind, Push(kind, acc, y), x, i);
    match Find(kind, acc, kind.id(y)) {
      case None => assert (acc + [y])[i := x'] == acc[i := x'] + [y];
      case Some(j) =>
        PushAt(kind, acc, y, j);
        PushAt(kind, Push(kind, acc, x), y, j);
        assert acc[i := x'][j := Better(kind, acc[j], y)] == acc[j := Better(kind, acc[j], y)][i := x'];
    }
  }

  lemma KeepsId<T, K>(kind: Kind<T, K>, acc: seq<T>, y: T, k: K)
    requires Unique(kind, acc) && Find(kind, acc, k).Some?
    ensures Find(kind, Push(kind, acc, y), k).Some?
  {
    var i := Find(kind, acc, k).value;
    assert kind.id(Push(kind, acc, y)[i]) == k;
  }

  lemma {:induction false} PushCommutesWithPass<T, K>(kind: Kind<T, K>, acc: seq<T>, x: T, ys: seq<T>)
    requires Unique(kind, acc) && Find(kind, acc, kind.id(x)).Some?
    requires forall j | 0 <= j < |ys| :: kind.id(ys[j]) != kind.id(x)
    ensures Pass(kind, Push(kind, acc, x), ys) == Push(kind, Pass(kind, acc, ys), x)
    decreases |ys|
  {
    if ys != [] {
      PushesCommute(kind, acc, x, ys[0]);
      PushUnique(kind, acc, ys[0]);
      KeepsId(kind, acc, ys[0], kind.id(x));
      PushCommutesWithPass(kind, Push(kind, acc, ys[0]), x, ys[1..]);
    }
  }

  /** A prototype and then its definition, or the definition alone: no difference. */
  lemma PushTwice<T, K>(kind: Kind<T, K>, acc: seq<T>, d: T, x: T)
    requires Unique(kind, acc) && kind.id(d) == kind.id(x) && !kind.defined(d) && kind.defined(x)
    ensures Push(kind, Push(kind, acc, d), x) == Push(kind, acc, x)
    ensures Find(kind, Push(kind, acc, d), kind.id(x)).Some?
  {
    match Find(kind, acc, kind.id(x)) {
      case None =>
        assert Unique(kind, acc + [d]);
        FindAt(kind, acc + [d], |acc|);
        assert (acc + [d])[|acc| := x] == acc + [x];
      case Some(i) =>
    }
  }

  lemma {:induction false} FindInPass<T, K>(kind: Kind<T, K>, acc: seq<T>, ys: seq<T>, k: K)
    requires Unique(kind, acc) && Find(kind, acc, k).Some?
    ensures Find(kind, Pass(kind, acc, ys), k).Some?
    ensures kind.defined(acc[Find(kind, acc, k).value])
        ==> kind.defined(Pass(kind, acc, ys)[Find(kind, Pass(kind, acc, ys), k).value])
    decreases |ys|
  {
    if ys != [] {
      var i := Find(kind, acc, k).value;
      var next := Push(kind, acc, ys[0]);
      PushUnique(kind, acc, ys[0]);
      assert kind.id(next[i]) == k;
      FindAt(kind, next, i);
      FindInPass(kind, next, ys[1..], k);
    }
  }

  /** Replaying a list around one of its entries. */
  lemma Around<T, K>(kind: Kind<T, K>, acc: seq<T>, before: seq<T>, d: T, after: seq<T>)
    ensures Pass(kind, acc, before + ([d] + after)) == Pass(kind, Push(kind, Pass(kind, acc, before), d), after)
  {
    PassAppend(kind, acc, before, [d] + after);
    assert ([d] + after)[1..] == after;
  }

  /** Replaying a deduplicated list after one more push amounts to that push. */
  lemma ReplayPush<T, K>(kind: Kind<T, K>, acc: seq<T>, d: seq<T>, x: T)
    requires Unique(kind, acc) && Unique(kind, d)
    ensures Pass(kind, acc, Push(kind, d, x)) == Push(kind, Pass(kind, acc, d), x)
  {
    match Find(kind, d, kind.id(x)) {
      case None =>
        PassAppend(kind, acc, d, [x]);
        assert [x][1..] == [];
      case Some(i) =>
        var before, after := d[..i], d[i + 1..];
        assert d == before + ([d[i]] + after);
        assert d[i := x] == before + ([x] + after);
        forall j | 0 <= j < |after| ensures kind.id(after[j]) != kind.id(x) {
          assert after[j] == d[i + 1 + j];
        }
        ReplayAt(kind, acc, before, d[i], after, x);
    }
  }

  lemma ReplayAt<T, K>(kind: Kind<T, K>, acc: seq<T>, before: seq<T>, d: T, after: seq<T>, x: T)
    requires Unique(kind, acc) && kind.id(d) == kind.id(x)
    requires forall j | 0 <= j < |after| :: kind.id(after[j]) != kind.id(x)
    ensures var upgraded := if !kind.defined(d) && kind.defined(x) then x else d;
            Pass(kind, acc, before + ([upgraded] + after)) == Push(kind, Pass(kind, acc, before + ([d] + after)), x)
  {
    PassUnique(kind, acc, before);
    Around(kind, acc, before, d, after);
    if !kind.defined(d) && kind.defined(x) {
      Around(kind, acc, before, x, after);
      ReplayUpgrade(kind, Pass(kind, acc, before), d, x, after);
    } else {
      ReplayIgnored(kind, Pass(kind, acc, before), d, x, after);
    }
  }

  lemma ReplayUpgrade<T, K>(kind: Kind<T, K>, p: seq<T>, d: T, x: T, after: seq<T>)
    requires Unique(kind, p) && kind.id(d) == kind.id(x) && !kind.defined(d) && kind.defined(x)
    requires forall j | 0 <= j < |after| :: kind.id(after[j]) != kind.id(x)
    ensures Pass(kind, Push(kind, p, x), after) == Push(kind, Pass(kind, Push(kind, p, d), after), x)
  {
    PushUnique(kind, p, d);
    PushTwice(kind, p, d, x);
    PushCommutesWithPass(kind, Push(kind, p, d), x, after);
  }

  lemma ReplayIgnored<T, K>(kind: Kind<T, K>, p: seq<T>, d: T, x: T, after: seq<T>)
    requires Unique(kind, p) && kind.id(d) == kind.id(x) && (kind.defined(d) || !kind.defined(x))
    ensures Push(kind, Pass(kind, Push(kind, p, d), after), x) == Pass(kind, Push(kind, p, d), after)
  {
    PushUnique(kind, p, d);
    PushedIsThere(kind, p, d);
    FindInPass(kind, Push(kind, p, d), after, kind.id(x));
  }

  lemma PushedIsThere<T, K>(kind: Kind<T, K>, acc: seq<T>, x: T)
    requires Unique(kind, acc)
    ensures var i := Find(kind, Push(kind, acc, x), kind.id(x));
            i.Some? && (kind.defined(x) ==> kind.defined(Push(kind, acc, x)[i.value]))
  {
    PushUnique(kind, acc, x);
    match Find(kind, acc, kind.id(x)) {
      case None => FindAt(kind, acc + [x], |acc|);
      case Some(i) => FindAt(kind, Push(kind, acc, x), i);
    }
  }

  lemma {:induction false} Replay<T, K>(kind: Kind<T, K>, acc: seq<T>, xs: seq<T>)
    requires Unique(kind, acc)
    ensures Pass(kind, acc, Pass(kind, [], xs)) == Pass(kind, acc, xs)
    decreases |xs|
  {
    if xs != [] {
      var init, x := xs[..|xs| - 1], xs[|xs| - 1];
      assert xs == init + [x];
      PassAppend(kind, [], init, [x]);
      PassAppend(kind, acc, init, [x]);
      assert [x][1..] == [];
      Replay(kind, acc, init);
      PassUnique(kind, [], init);
      ReplayPush(kind, acc, Pass(kind, [], init), x);
    }
  }

  /** Deduplicating each worker's stream and then the concatenation of the results gives the
      list one pass over the concatenated streams gives: same order, same representatives. */
  lemma {:induction false} ParallelEqualsSequential<T, K>(kind: Kind<T, K>, acc: seq<T>, chunks: seq<seq<T>>)
    requires Unique(kind, acc)
    ensures Pass(kind, acc, Flatten(Locally(kind, chunks))) == Pass(kind, acc, Flatten(chunks))
    decreases |chunks|
  {
    if chunks != [] {
      var first := Pass(kind, [], chunks[0]);
      PassAppend(kind, acc, first, Flatten(Locally(kind, chunks[1..])));
      PassAppend(kind, acc, chunks[0], Flatten(chunks[1..]));
      assert Locally(kind, chunks)[1..] == Locally(kind, chunks[1..]);
      Replay(kind, acc, chunks[0]);
      PassUnique(kind, acc, chunks[0]);
      ParallelEqualsSequential(kind, Pass(kind, acc, chunks[0]), chunks[1..]);
    }
  }

  // ----- what one pass yields -----

  /** `xs[i]` represents its identity: the first definition, or failing any the first entry. */
  ghost predicate Represents<T, K>(kind: Kind<T, K>, xs: seq<T>, i: nat) {
    i < |xs|
    && forall j | 0 <= j < |xs| && kind.id(xs[j]) == kind.id(xs[i]) ::
         if kind.defined(xs[i]) then kind.defined(xs[j]) ==> i <= j else !kind.defined(xs[j]) && i <= j
  }

  ghost predicate FirstOf<T, K>(kind: Kind<T, K>, xs: seq<T>, f: nat) {
    f < |xs| && forall j | 0 <= j < f :: kind.id(xs[j]) != kind.id(xs[f])
  }

  /** Where the entries of a result come from: `first` lists the first occurrences, in
      order; `rep` the positions of the representatives. */
  ghost predicate Explains<T, K>(kind: Kind<T, K>, xs: seq<T>, r: seq<T>, first: seq<nat>, rep: seq<nat>) {
    && |first| == |rep| == |r|
    && (forall k | 0 <= k < |r| :: Entry(kind, xs, r[k], first[k], rep[k]))
    && (forall k, l | 0 <= k < l < |r| :: first[k] < first[l])
    && Covers(kind, xs, r)
  }

  /** One pass keeps one entry per identity, in order of first occurrence, and of each
      identity the first definition, or failing any the first entry. */
  lemma {:induction false} PassSelects<T, K>(kind: Kind<T, K>, xs: seq<T>)
    ensures Unique(kind, Pass(kind, [], xs))
    ensures exists first, rep :: Explains(kind, xs, Pass(kind, [], xs), first, rep)
    decreases |xs|
  {
    PassUnique(kind, [], xs);
    if xs == [] {
      assert Explains(kind, xs, [], [], []);
    } else {
      var init, x := xs[..|xs| - 1], xs[|xs| - 1];
      assert xs == init + [x];
      PassAppend(kind, [], init, [x]);
      assert [x][1..] == [];
      PassSelects(kind, init);
      var r := Pass(kind, [], init);
      var first, rep :| Explains(kind, init, r, first, rep);
      Extend(kind, init, x, r, first, rep);
    }
  }

  /** Every identity of the input is in the result. */
  ghost predicate Covers<T, K>(kind: Kind<T, K>, xs: seq<T>, r: seq<T>) {
    forall j | 0 <= j < |xs| :: Find(kind, r, kind.id(xs[j])).Some?
  }

  ghost predicate Entry<T, K>(kind: Kind<T, K>, xs: seq<T>, e: T, first: nat, rep: nat) {
    FirstOf(kind, xs, first) && Represents(kind, xs, rep) && e == xs[rep] && kind.id(xs[first]) == kind.id(e)
  }

  lemma EntryStays<T, K>(kind: Kind<T, K>, init: seq<T>, x: T, e: T, first: nat, rep: nat)
    requires Entry(kind, init, e, first, rep)
    requires kind.id(x) != kind.id(e) || kind.defined(e) || !kind.defined(x)
    ensures Entry(kind, init + [x], e, first, rep)
  {
    var xs := init + [x];
    assert forall j | 0 <= j < |init| :: xs[j] == init[j];
  }

  lemma EntryUpgraded<T, K>(kind: Kind<T, K>, init: seq<T>, x: T, e: T, first: nat, rep: nat)
    requires Entry(kind, init, e, first, rep)
    requires kind.id(x) == kind.id(e) && !kind.defined(e) && kind.defined(x)
    ensures Entry(kind, init + [x], x, first, |init|)
  {
    var xs := init + [x];
    assert forall j | 0 <= j < |init| :: xs[j] == init[j];
    assert forall j | 0 <= j < |init| && kind.id(init[j]) == kind.id(init[rep]) :: !kind.defined(init[j]);
  }

  lemma EntryAdded<T, K>(kind: Kind<T, K>, init: seq<T>, x: T, r: seq<T>)
    requires Covers(kind, init, r) && Find(kind, r, kind.id(x)).None?
    ensures Entry(kind, init + [x], x, |init|, |init|)
  {
    var xs := init + [x];
    forall j | 0 <= j < |init| ensures xs[j] == init[j] && kind.id(xs[j]) != kind.id(x) {
      assert Find(kind, r, kind.id(init[j])).Some?;
    }
  }

  lemma CoversPushed<T, K>(kind: Kind<T, K>, init: seq<T>, x: T, r: seq<T>)
    requires Unique(kind, r) && Covers(kind, init, r)
    ensures Covers(kind, init + [x], Push(kind, r, x))
  {
    var xs := init + [x];
    forall j | 0 <= j < |xs| ensures Find(kind, Push(kind, r, x), kind.id(xs[j])).Some? {
      if j < |init| {
        KeepsId(kind, r, x, kind.id(init[j]));
        PushUnique(kind, r, x);
      } else {
        PushedIsThere(kind, r, x);
      }
    }
  }

  lemma Extend<T, K>(kind: Kind<T, K>, init: seq<T>, x: T, r: seq<T>, first: seq<nat>, rep: seq<nat>)
    requires Explains(kind, init, r, first, rep) && Unique(kind, r)
    ensures exists first', rep' :: Explains(kind, init + [x], Push(kind, r, x), first', rep')
  {
    match Find(kind, r, kind.id(x))
    case None => ExtendByNew(kind, init, x, r, first, rep);
    case Some(_) => ExtendByKnown(kind, init, x, r, first, rep);
  }

  lemma ExtendByNew<T, K>(kind: Kind<T, K>, init: seq<T>, x: T, r: seq<T>, first: seq<nat>, rep: seq<nat>)
    requires Explains(kind, init, r, first, rep) && Unique(kind, r) && Find(kind, r, kind.id(x)).None?
    ensures Explains(kind, init + [x], Push(kind, r, x), first + [|init|], rep + [|init|])
  {
    CoversPushed(kind, init, x, r);
    EntryAdded(kind, init, x, r);
    forall k | 0 <= k < |r| ensures first[k] < |init| && Entry(kind, init + [x], r[k], first[k], rep[k]) {
      assert Entry(kind, init, r[k], first[k], rep[k]);
      EntryStays(kind, init, x, r[k], first[k], rep[k]);
    }
  }

  lemma ExtendByKnown<T, K>(kind: Kind<T, K>, init: seq<T>, x: T, r: seq<T>, first: seq<nat>, rep: seq<nat>)
    requires Explains(kind, init, r, first, rep) && Unique(kind, r) && Find(kind, r, kind.id(x)).Some?
    ensures exists rep' :: Explains(kind, init + [x], Push(kind, r, x), first, rep')
  {
    CoversPushed(kind, init, x, r);
    var i := Find(kind, r, kind.id(x)).value;
    var upgrade := !kind.defined(r[i]) && kind.defined(x);
    var rep' := if upgrade then rep[i := |init|] else rep;
    forall k | 0 <= k < |r| ensures Entry(kind, init + [x], Push(kind, r, x)[k], first[k], rep'[k]) {
      assert Entry(kind, init, r[k], first[k], rep[k]);
      if k == i && upgrade {
        EntryUpgraded(kind, init, x, r[i], first[i], rep[i]);
      } else {
        assert k != i ==> kind.id(r[k]) != kind.id(r[i]);
        EntryStays(kind, init, x, r[k], first[k], rep[k]);
      }
    }
    assert Explains(kind, init + [x], Push(kind, r, x), first, rep');
  }

  // ----- the loop -----

  /** The index map a merge keeps beside its list. */
  ghost predicate Indexed<T, K>(kind: Kind<T, K>, acc: seq<T>, index: map<K, nat>) {
    && Unique(kind, acc)
    && (forall i | 0 <= i < |acc| :: kind.id(acc[i]) in index && index[kind.id(acc[i])] == i)
    && (forall k | k in index :: index[k] < |acc| && kind.id(acc[index[k]]) == k)
  }

  lemma IndexFinds<T, K>(kind: Kind<T, K>, acc: seq<T>, index: map<K, nat>, k: K)
    requires Indexed(kind, acc, index)
    ensures Find(kind, acc, k) == if k in index then Some(index[k]) else None
  {
    if k in index { FindAt(kind, acc, index[k]); }
  }

  /** Merges the workers' lists in order, looking identities up in a map. */
  method MergeLists<T, K(==)>(kind: Kind<T, K>, partials: seq<seq<T>>) returns (merged: seq<T>)
    ensures merged == Pass(kind, [], Flatten(partials))
  {
    merged := [];
    var index: map<K, nat> := map[];
    for p := 0 to |partials|
      invariant Indexed(kind, merged, index)
      invariant Pass(kind, merged, Flatten(partials[p..])) == Pass(kind, [], Flatten(partials))
    {
      var partial := partials[p];
      assert partials[p..][0] == partial && partials[p..][1..] == partials[p + 1..];
      PassAppend(kind, merged, partial, Flatten(partials[p + 1..]));
      for i := 0 to |partial|
        invariant Indexed(kind, merged, index)
        invariant Pass(kind, Pass(kind, merged, partial[i..]), Flatten(partials[p + 1..]))
            == Pass(kind, [], Flatten(partials))
      {
        var x := partial[i];
        assert partial[i..][0] == x && partial[i..][1..] == partial[i + 1..];
        var k := kind.id(x);
        IndexFinds(kind, merged, index, k);
        if k !in index {
          index := index[k := |merged|];
          merged := merged + [x];
        } else if !kind.defined(merged[index[k]]) && kind.defined(x) {
          merged := merged[index[k] := x];
        }
      }
      assert partial[|partial|..] == [];
    }
    assert partials[|partials|..] == [];
  }
}
