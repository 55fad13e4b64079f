/**
 The tree of callers of a function: who calls it, who calls those, and so on,
 stopping at a depth and at a function that is its own caller's ancestor.
 */
module Callers {
  import opened Wrappers
  import opened Reachability

  /** `usr`'s label is printed with a mark when the node repeats an ancestor. */
  datatype Tree = Node(usr: string, cycle: bool, children: seq<Tree>)

  /** The server's answer for one function, in order; `None` when the request fails. */
  type Answers = string -> Option<seq<string>>

  // ----- as a function of the path -----

  /** The children of the last function of a root-to-node path. */
  function Children(answers: Answers, path: seq<string>, depth: nat): Option<seq<Tree>>
    requires path != []
    decreases depth, 1, 0
  {
    if depth == 0 then Some([])
    else match answers(path[|path| - 1])
      case None => None
      case Some(callers) => ChildrenAmong(answers, path, depth, callers)
  }

  function ChildrenAmong(answers: Answers, path: seq<string>, depth: nat, callers: seq<string>): Option<seq<Tree>>
    requires path != [] && depth > 0
    decreases depth, 0, |callers|
  {
    if callers == [] then Some([])
    else match Child(answers, path, depth, callers[0])
      case None => None
      case Some(first) =>
        match ChildrenAmong(answers, path, depth, callers[1..])
        case None => None
        case Some(rest) => Some([first] + rest)
  }

  function Child(answers: Answers, path: seq<string>, depth: nat, caller: string): Option<Tree>
    requires path != [] && depth > 0
    decreases depth, 0, 0
  {
    if caller in path then Some(Node(caller, true, []))
    else match Children(answers, path + [caller], depth - 1)
      case None => None
      case Some(children) => Some(Node(caller, false, children))
  }

  // ----- with one shared set -----

  ghost predicate IsPathSet(path: seq<string>, visited: set<string>) {
    forall u :: u in visited <==> u in path
  }

  /** The shared set comes back as it was, unless a request failed. */
  method CollectChildren(answers: Answers, usr: string, remaining: nat, visited: set<string>, ghost path: seq<string>)
      returns (children: Option<seq<Tree>>, visitedNow: set<string>)
    requires path != [] && path[|path| - 1] == usr && IsPathSet(path, visited)
    ensures children == Children(answers, path, remaining)
    ensures children.Some? ==> visitedNow == visited
    decreases remaining
  {
    visitedNow := visited;
    if remaining == 0 {
      return Some([]), visitedNow;
    }
    var body := answers(usr);
    if body.None? {
      return None, visitedNow;
    }
    var callers := body.value;
    var nodes: seq<Tree> := [];
    PrependNothing(ChildrenAmong(answers, path, remaining, callers));
    assert callers[0..] == callers;
    for i := 0 to |callers|
      invariant visitedNow == visited
      invariant Children(answers, path, remaining)
          == Prepend(nodes, ChildrenAmong(answers, path, remaining, callers[i..]))
    {
      var caller := callers[i];
      NextCaller(answers, path, remaining, callers, i, nodes);
      if caller in visitedNow {
        nodes := nodes + [Node(caller, true, [])];
        continue;
      }
      visitedNow := visitedNow + {caller};
      var below: Option<seq<Tree>>;
      below, visitedNow := CollectChildren(answers, caller, remaining - 1, visitedNow, path + [caller]);
      if below.None? {
        return None, visitedNow;
      }
      visitedNow := visitedNow - {caller};
      nodes := nodes + [Node(caller, false, below.value)];
    }
    assert callers[|callers|..] == [] && nodes + [] == nodes;
    children := Some(nodes);
  }

  function Prepend(nodes: seq<Tree>, rest: Option<seq<Tree>>): Option<seq<Tree>> {
    if rest.None? then None else Some(nodes + rest.value)
  }

  lemma PrependNothing(rest: Option<seq<Tree>>)
    ensures Prepend([], rest) == rest
  {
    if rest.Some? { assert [] + rest.value == rest.value; }
  }

  lemma NextCaller(answers: Answers, path: seq<string>, depth: nat, callers: seq<string>, i: nat, nodes: seq<Tree>)
    requires path != [] && depth > 0 && i < |callers|
    ensures Prepend(nodes, ChildrenAmong(answers, path, depth, callers[i..]))
        == match Child(answers, path, depth, callers[i])
      case None => None
      case Some(child) => Prepend(nodes + [child], ChildrenAmong(answers, path, depth, callers[i + 1..]))
  {
    assert callers[i..][0] == callers[i] && callers[i..][1..] == callers[i + 1..];
    var child, rest := Child(answers, path, depth, callers[i]), ChildrenAmong(answers, path, depth, callers[i + 1..]);
    if child.Some? && rest.Some? { assert nodes + ([child.value] + rest.value) == nodes + [child.value] + rest.value; }
  }

  method BuildCallersTree(answers: Answers, root: string, maxDepth: nat) returns (tree: Option<Tree>)
    ensures tree == match Children(answers, [root], maxDepth)
                    case None => None
                    case Some(children) => Some(Node(root, false, children))
  {
    var visited := {root};
    var children: Option<seq<Tree>>;
    children, visited := CollectChildren(answers, root, maxDepth, visited, [root]);
    if children.None? {
      return None;
    }
    tree := Some(Node(root, false, children.value));
  }

  // ----- what the tree is -----

  /** A node is marked exactly when it repeats an ancestor, and then it is a leaf; the others
      list their callers in order, down to the depth. */
  ghost predicate Right(answers: Answers, ancestors: set<string>, depth: nat, t: Tree)
    decreases t, 0
  {
    && (t.cycle <==> t.usr in ancestors)
    && (if t.cycle || depth == 0 then t.children == []
        else answers(t.usr).Some? && Lists(t.children, answers(t.usr).value)
             && AllRight(answers, ancestors + {t.usr}, depth - 1, t.children))
  }

  function OnPath(path: seq<string>): set<string> {
    set u | u in path
  }

  ghost predicate AllRight(answers: Answers, ancestors: set<string>, depth: nat, ts: seq<Tree>)
    decreases ts, 0
  {
    ts == [] || (Right(answers, ancestors, depth, ts[0]) && AllRight(answers, ancestors, depth, ts[1..]))
  }

  predicate Lists(ts: seq<Tree>, usrs: seq<string>) {
    |ts| == |usrs| && forall i | 0 <= i < |ts| :: ts[i].usr == usrs[i]
  }

  /** How many callers deep a tree goes. */
  function Height(t: Tree): nat
    decreases t, 0
  {
    if t.children == [] then 0 else 1 + MaxHeight(t.children)
  }

  function MaxHeight(ts: seq<Tree>): nat
    decreases ts, 0
  {
    if ts == [] then 0
    else var rest := MaxHeight(ts[1..]); if Height(ts[0]) > rest then Height(ts[0]) else rest
  }

  lemma {:induction false} ChildrenRight(answers: Answers, path: seq<string>, depth: nat)
    requires path != [] && Children(answers, path, depth).Some?
    ensures var ts := Children(answers, path, depth).value;
            if depth == 0 then ts == []
            else answers(path[|path| - 1]).Some? && Lists(ts, answers(path[|path| - 1]).value)
                 && AllRight(answers, OnPath(path), depth - 1, ts)
    decreases depth, 1, 0
  {
    if depth > 0 { ChildrenAmongRight(answers, path, depth, answers(path[|path| - 1]).value); }
  }

  lemma {:induction false} ChildrenAmongRight(answers: Answers, path: seq<string>, depth: nat, callers: seq<string>)
    requires path != [] && depth > 0 && ChildrenAmong(answers, path, depth, callers).Some?
    ensures var ts := ChildrenAmong(answers, path, depth, callers).value;
            Lists(ts, callers) && AllRight(answers, OnPath(path), depth - 1, ts)
    decreases depth, 0, |callers|
  {
    if callers != [] {
      ChildRight(answers, path, depth, callers[0]);
      ChildrenAmongRight(answers, path, depth, callers[1..]);
    }
  }

  lemma {:induction false} ChildRight(answers: Answers, path: seq<string>, depth: nat, caller: string)
    requires path != [] && depth > 0 && Child(answers, path, depth, caller).Some?
    ensures Child(answers, path, depth, caller).value.usr == caller
    ensures Right(answers, OnPath(path), depth - 1, Child(answers, path, depth, caller).value)
    decreases depth, 0, 0
  {
    if caller !in path {
      ChildrenRight(answers, path + [caller], depth - 1);
      assert OnPath(path + [caller]) == OnPath(path) + {caller};
    }
  }

  /** The tree: the root first, every node's callers in order, a mark exactly on a repeated ancestor. */
  lemma TreeIsRight(answers: Answers, root: string, maxDepth: nat)
    requires Children(answers, [root], maxDepth).Some?
    ensures Right(answers, {}, maxDepth, Node(root, false, Children(answers, [root], maxDepth).value))
  {
    ChildrenRight(answers, [root], maxDepth);
    assert OnPath([root]) == {} + {root};
  }

  /** Everyone who calls anyone. */
  ghost predicate Closed(answers: Answers, universe: set<string>) {
    forall u, i | u in universe && answers(u).Some? && 0 <= i < |answers(u).value| :: answers(u).value[i] in universe
  }

  /** No tree is deeper than it was asked to be, nor than there are functions left to expand. */
  lemma {:induction false} RightIsShallow(answers: Answers, ancestors: set<string>, universe: set<string>, depth: nat,
                                          t: Tree)
    requires Right(answers, ancestors, depth, t) && t.usr in universe && Closed(answers, universe)
    ensures Height(t) <= depth && Height(t) <= |universe - ancestors|
    decreases t, 0
  {
    if !t.cycle && depth > 0 {
      assert t.usr in universe - ancestors;
      ShrinkingSet(universe - (ancestors + {t.usr}), universe - ancestors);
      AllRightIsShallow(answers, ancestors + {t.usr}, universe, depth - 1, t.children);
    }
  }

  lemma {:induction false} AllRightIsShallow(answers: Answers, ancestors: set<string>, universe: set<string>,
                                             depth: nat, ts: seq<Tree>)
    requires AllRight(answers, ancestors, depth, ts) && Closed(answers, universe)
    requires forall i | 0 <= i < |ts| :: ts[i].usr in universe
    ensures MaxHeight(ts) <= depth && MaxHeight(ts) <= |universe - ancestors|
    decreases ts, 0
  {
    if ts != [] {
      RightIsShallow(answers, ancestors, universe, depth, ts[0]);
      AllRightIsShallow(answers, ancestors, universe, depth, ts[1..]);
    }
  }

  /** So the tree's depth is bounded by both the limit and the number of functions. */
  lemma TreeIsShallow(answers: Answers, root: string, maxDepth: nat, universe: set<string>)
    requires Children(answers, [root], maxDepth).Some? && root in universe && Closed(answers, universe)
    ensures Height(Node(root, false, Children(answers, [root], maxDepth).value)) <= maxDepth
    ensures Height(Node(root, false, Children(answers, [root], maxDepth).value)) <= |universe|
  {
    TreeIsRight(answers, root, maxDepth);
    RightIsShallow(answers, {}, universe, maxDepth, Node(root, false, Children(answers, [root], maxDepth).value));
    assert universe - {} == universe;
  }
}
