/**
 Every place a body mentions a name or `this`, in order: what it uses, assigns
 and declares.  The parameter defaults of a lambda are kept apart,
 because two of the passes do not look into them.
 */
module Occurrences {
  import opened Wrappers
  import opened Ir

  datatype Occ =
    | Use(name: string)
    | Put(name: string)
    | Decl(name: string)
    | Self
    | PutSelf
    | InDefault(inner: Occ)

  function Tagged(os: seq<Occ>): seq<Occ> {
    if os == [] then [] else [InDefault(os[0])] + Tagged(os[1..])
  }

  function ExprOccs(e: Expr): seq<Occ>
    decreases e, 0
  {
    match e
    case IntLiteral(_, _) => []
    case BoolLiteral(_, _) => []
    case StringLiteral(_, _) => []
    case NullLiteral(_) => []
    case Ref(n, _, _) => [Use(n)]
    case This(_, _) => [Self]
    case Binary(_, l, r, _, _) => ExprOccs(l) + ExprOccs(r)
    case Conditional(c, t, f, _, _) => ExprOccs(c) + ExprOccs(t) + ExprOccs(f)
    case Is(o, _, _) => ExprOccs(o)
    case AssignExpr(t, v, _, _) =>
      ExprOccs(t) + ExprOccs(v) + (if t.Ref? then [Put(t.name)] else if t.This? then [PutSelf] else [])
    case FieldAccess(t, _, _, _) => ExprOccs(t)
    case Call(receiver, _, _, _, args, _, _) =>
      (if receiver.Some? then ExprOccs(receiver.value) else []) + ExprsOccs(args)
    case RecordConstruct(_, _, _, args, _) => ExprsOccs(args)
    case RecordCopy(t, _, _, _) => ExprOccs(t)
    case ConstructorCall(_, _, _, args, _) => ExprsOccs(args)
    case Lambda(params, body, _, _) => ParamOccs(params) + StmtsOccs(body)
    case UnsupportedTyped(_, _, _) => []
  }

  function ExprsOccs(es: seq<Expr>): seq<Occ>
    decreases es, 0
  {
    if es == [] then [] else ExprOccs(es[0]) + ExprsOccs(es[1..])
  }


  function ParamOccs(params: seq<Param>): seq<Occ>
    decreases params, 0
  {
    if params == [] then []
    else [Decl(params[0].name)]
         + (if params[0].defaultValue.Some? then Tagged(ExprOccs(params[0].defaultValue.value)) else [])
         + ParamOccs(params[1..])
  }

  function StmtsOccs(ss: seq<Stmt>): seq<Occ>
    decreases ss, 0
  {
    if ss == [] then [] else StmtOccs(ss[0]) + StmtsOccs(ss[1..])
  }

  function StmtOccs(s: Stmt): seq<Occ>
    decreases s, 0
  {
    match s
    case Return(e) => if e.Some? then ExprOccs(e.value) else []
    case VarDecl(n, _, e) => (if e.Some? then ExprOccs(e.value) else []) + [Decl(n)]
    case Assign(n, e) => ExprOccs(e) + [Put(n)]
    case FieldAssign(t, _, e) => ExprOccs(t) + ExprOccs(e)
    case If(c, t, f) => ExprOccs(c) + StmtsOccs(t) + StmtsOccs(f)
    case While(c, b) => ExprOccs(c) + StmtsOccs(b)
    case DoWhile(b, c) => StmtsOccs(b) + ExprOccs(c)
    case For(i, c, n, b) =>
      (if i.Some? then StmtOccs(i.value) else []) + (if c.Some? then ExprOccs(c.value) else [])
      + (if n.Some? then StmtOccs(n.value) else []) + StmtsOccs(b)
    case ForEach(n, _, e, b) => ExprOccs(e) + [Decl(n)] + StmtsOccs(b)
    case Break => []
    case Continue => []
    case ContinueLabel(_) => []
    case ExprStmt(e) => ExprOccs(e)
    case Throw(e) => ExprOccs(e)
    case TryCatch(t, _, n, c) => StmtsOccs(t) + [Decl(n)] + StmtsOccs(c)
    case TryFinally(t, f) => StmtsOccs(t) + StmtsOccs(f)
    case Switch(e, cases, _, d) => ExprOccs(e) + CasesOccs(cases) + StmtsOccs(d)
    case UnsupportedStmt(_) => []
  }

  function CasesOccs(cases: seq<SwitchCase>): seq<Occ>
    decreases cases, 0
  {
    if cases == [] then []
    else ExprsOccs(cases[0].values) + StmtsOccs(cases[0].body) + CasesOccs(cases[1..])
  }

  /** Whether a body contains a `return` of its own (one inside a lambda is the lambda's). */
  predicate Returns(ss: seq<Stmt>)
    decreases ss, 0
  {
    ss != [] && (StmtReturns(ss[0]) || Returns(ss[1..]))
  }

  predicate StmtReturns(s: Stmt)
    decreases s, 0
  {
    match s
    case Return(_) => true
    case If(_, t, f) => Returns(t) || Returns(f)
    case While(_, b) => Returns(b)
    case DoWhile(b, _) => Returns(b)
    case For(i, _, n, b) => (i.Some? && StmtReturns(i.value)) || (n.Some? && StmtReturns(n.value)) || Returns(b)
    case ForEach(_, _, _, b) => Returns(b)
    case TryCatch(t, _, _, c) => Returns(t) || Returns(c)
    case TryFinally(t, f) => Returns(t) || Returns(f)
    case Switch(_, cases, _, d) => CasesReturn(cases) || Returns(d)
    case _ => false
  }

  predicate CasesReturn(cases: seq<SwitchCase>)
    decreases cases, 0
  {
    cases != [] && (Returns(cases[0].body) || CasesReturn(cases[1..]))
  }

  /** The name an occurrence reads or assigns. */
  function Mentioned(o: Occ): set<string> {
    match o
    case Use(n) => {n}
    case Put(n) => {n}
    case InDefault(inner) => Mentioned(inner)
    case _ => {}
  }

  function MentionedNames(os: seq<Occ>): set<string> {
    if os == [] then {} else Mentioned(os[0]) + MentionedNames(os[1..])
  }

  lemma MentionedIn(os: seq<Occ>, o: Occ)
    requires o in os
    ensures Mentioned(o) <= MentionedNames(os)
  {
  }

  /** `this`, or an assignment to it, somewhere inside. */
  predicate IsSelf(o: Occ) {
    o.Self? || o.PutSelf? || (o.InDefault? && IsSelf(o.inner))
  }

  /** The names bound inside: declarations, and the parameters of lambdas. */
  function DeclaredNames(os: seq<Occ>): set<string> {
    set o | o in os && o.Decl? :: o.name
  }

  /** Each occurrence once, where it comes first; nothing in `seen`. */
  function Firsts(os: seq<Occ>, seen: set<Occ>): (r: seq<Occ>)
    ensures forall o | o in r :: o in os && o !in seen
  {
    if os == [] then []
    else if os[0] in seen then Firsts(os[1..], seen)
    else [os[0]] + Firsts(os[1..], seen + {os[0]})
  }

  function Elements(os: seq<Occ>): set<Occ> {
    set o | o in os
  }

  lemma ElementsAppend(a: seq<Occ>, b: seq<Occ>)
    ensures Elements(a + b) == Elements(a) + Elements(b)
  {
  }

  lemma {:induction false} FirstsAppend(a: seq<Occ>, b: seq<Occ>, seen: set<Occ>)
    ensures Firsts(a + b, seen) == Firsts(a, seen) + Firsts(b, seen + Elements(a))
    decreases |a|
  {
    if a == [] {
      assert a + b == b && seen + Elements(a) == seen;
    } else {
      assert (a + b)[1..] == a[1..] + b;
      assert Elements(a) == {a[0]} + Elements(a[1..]) by { assert a == [a[0]] + a[1..]; }
      FirstsAppend(a[1..], b, seen + {a[0]});
      assert seen + {a[0]} + Elements(a[1..]) == seen + Elements(a);
      assert a[0] in seen ==> seen + {a[0]} == seen;
    }
  }
}
