/**
 Following a chain of single links until something is found, with a set of
 visited keys to stop at a cycle.
 */
module Chains {
  import opened Wrappers
  import opened Reachability

  /** Each element yields some findings and links to at most one next element; `all` is what
      is answered when nothing is found. */
  datatype Chain<!T, !P> = Chain(next: T -> Option<T>, key: T -> string, finds: T -> seq<P>, all: seq<P>)

  ghost predicate Covers<T(!new), P>(c: Chain<T, P>, start: T, universe: set<string>) {
    c.key(start) in universe && forall t | c.next(t).Some? :: c.key(c.next(t).value) in universe
  }

  /** The recursion, with the keys visited so far. */
  ghost function Search<T(!new), P>(c: Chain<T, P>, at: T, visited: set<string>, universe: set<string>): seq<P>
    requires Covers(c, at, universe)
    decreases |universe - visited|
  {
    if c.key(at) in visited then c.all
    else if c.finds(at) != [] then c.finds(at)
    else match c.next(at)
      case None => c.all
      case Some(t) =>
        ShrinkingSet(universe - (visited + {c.key(at)}), universe - visited);
        Search(c, t, visited + {c.key(at)}, universe)
  }

  /** The n-th element. */
  function Walk<T, P>(c: Chain<T, P>, start: T, n: nat): Option<T> {
    if n == 0 then Some(start)
    else match Walk(c, start, n - 1)
      case None => None
      case Some(t) => c.next(t)
  }

  predicate FindsAt<T, P>(c: Chain<T, P>, start: T, n: nat) {
    var t := Walk(c, start, n);
    t.Some? && c.finds(t.value) != []
  }

  /** The chain never meets two elements of one key. */
  ghost predicate KeysTell<T, P>(c: Chain<T, P>, start: T) {
    forall i: nat, j: nat | Walk(c, start, i).Some? && Walk(c, start, j).Some? ::
      c.key(Walk(c, start, i).value) == c.key(Walk(c, start, j).value) ==> Walk(c, start, i) == Walk(c, start, j)
  }

  lemma {:induction false} WalkShift<T, P>(c: Chain<T, P>, start: T, i: nat, n: nat, m: nat)
    requires Walk(c, start, i) == Walk(c, start, n)
    ensures Walk(c, start, i + m) == Walk(c, start, n + m)
    decreases m
  {
    if m > 0 { WalkShift(c, start, i, n, m - 1); }
  }

  lemma {:induction false} WalkDefined<T, P>(c: Chain<T, P>, start: T, n: nat, k: nat)
    requires n <= k && Walk(c, start, k).Some?
    ensures Walk(c, start, n).Some?
    decreases k
  {
    if n < k { WalkDefined(c, start, n, k - 1); }
  }

  /** The visited keys are those of the elements before the n-th. */
  ghost predicate Passed<T, P>(c: Chain<T, P>, start: T, n: nat, visited: set<string>) {
    forall u | u in visited :: exists i | 0 <= i < n :: Walk(c, start, i).Some? && c.key(Walk(c, start, i).value) == u
  }

  /** The search answers with the first findings along the chain. */
  lemma {:induction false} SearchFindsFirst<T(!new), P>(c: Chain<T, P>, start: T, n: nat, k: nat, visited: set<string>,
                                                        universe: set<string>)
    requires KeysTell(c, start) && n <= k && FindsAt(c, start, k)
    requires forall j | 0 <= j < k :: !FindsAt(c, start, j)
    requires Walk(c, start, n).Some? && Passed(c, start, n, visited) && Covers(c, Walk(c, start, n).value, universe)
    ensures Search(c, Walk(c, start, n).value, visited, universe) == c.finds(Walk(c, start, k).value)
    decreases k - n
  {
    var t := Walk(c, start, n).value;
    if c.key(t) in visited {
      var i :| 0 <= i < n && Walk(c, start, i).Some? && c.key(Walk(c, start, i).value) == c.key(t);
      WalkShift(c, start, i, n, k - n);
      assert FindsAt(c, start, i + (k - n));
      assert false;
    } else if n < k {
      assert !FindsAt(c, start, n);
      WalkDefined(c, start, n + 1, k);
      assert Passed(c, start, n + 1, visited + {c.key(t)});
      SearchFindsFirst(c, start, n + 1, k, visited + {c.key(t)}, universe);
    }
  }

  /** With nothing to find, whether the chain ends or cycles, the answer is everything. */
  lemma {:induction false} SearchFindsNothing<T(!new), P>(c: Chain<T, P>, start: T, n: nat, visited: set<string>,
                                                          universe: set<string>)
    requires forall k: nat :: !FindsAt(c, start, k)
    requires Walk(c, start, n).Some? && Covers(c, Walk(c, start, n).value, universe)
    ensures Search(c, Walk(c, start, n).value, visited, universe) == c.all
    decreases |universe - visited|
  {
    var t := Walk(c, start, n).value;
    assert !FindsAt(c, start, n);
    if c.key(t) !in visited && c.next(t).Some? {
      assert Walk(c, start, n + 1) == c.next(t);
      ShrinkingSet(universe - (visited + {c.key(t)}), universe - visited);
      SearchFindsNothing(c, start, n + 1, visited + {c.key(t)}, universe);
    }
  }
}
