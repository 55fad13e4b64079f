/**
 The calls a body makes, in order and at any depth, and what it means to change
 nothing of a body but their names.  Calls in the parameter defaults of a lambda
 are not among them.
 */
module CallNames {
  import opened Wrappers
  import opened Ir
  import opened Rewriting

  /** A usr and the name written for it. */
  datatype Callee = Callee(usr: string, name: string)

  function CallsE(e: Expr): seq<Callee>
    decreases e, 0
  {
    match e
    case Binary(_, l, r, _, _) => CallsE(l) + CallsE(r)
    case Conditional(c, t, f, _, _) => CallsE(c) + CallsE(t) + CallsE(f)
    case Is(x, _, _) => CallsE(x)
    case AssignExpr(t, v, _, _) => CallsE(t) + CallsE(v)
    case FieldAccess(t, _, _, _) => CallsE(t)
    case Call(receiver, _, usr, name, args, _, _) =>
      [Callee(usr, name)] + CallsO(receiver) + CallsEs(args)
    case RecordConstruct(_, _, _, args, _) => CallsEs(args)
    case RecordCopy(t, _, _, _) => CallsE(t)
    case ConstructorCall(_, _, _, args, _) => CallsEs(args)
    case Lambda(_, body, _, _) => CallsSs(body)
    case _ => []
  }

  function CallsO(e: Option<Expr>): seq<Callee>
    decreases e, 0
  {
    if e.Some? then CallsE(e.value) else []
  }

  function CallsEs(es: seq<Expr>): seq<Callee>
    decreases es, 0
  {
    if es == [] then [] else CallsE(es[0]) + CallsEs(es[1..])
  }

  function CallsSs(ss: seq<Stmt>): seq<Callee>
    decreases ss, 0
  {
    if ss == [] then [] else CallsS(ss[0]) + CallsSs(ss[1..])
  }

  function CallsS(s: Stmt): seq<Callee>
    decreases s, 0
  {
    match s
    case Return(e) => CallsO(e)
    case VarDecl(_, _, e) => CallsO(e)
    case Assign(_, e) => CallsE(e)
    case FieldAssign(t, _, e) => CallsE(t) + CallsE(e)
    case If(c, t, f) => CallsE(c) + CallsSs(t) + CallsSs(f)
    case While(c, b) => CallsE(c) + CallsSs(b)
    case DoWhile(b, c) => CallsSs(b) + CallsE(c)
    case For(i, c, n, b) =>
      (if i.Some? then CallsS(i.value) else []) + CallsO(c) + (if n.Some? then CallsS(n.value) else []) + CallsSs(b)
    case ForEach(_, _, e, b) => CallsE(e) + CallsSs(b)
    case ExprStmt(e) => CallsE(e)
    case Throw(e) => CallsE(e)
    case TryCatch(t, _, _, c) => CallsSs(t) + CallsSs(c)
    case TryFinally(t, f) => CallsSs(t) + CallsSs(f)
    case Switch(e, cases, _, d) => CallsE(e) + CallsCases(cases) + CallsSs(d)
    case _ => []
  }

  function CallsCases(cases: seq<SwitchCase>): seq<Callee>
    decreases cases, 0
  {
    if cases == [] then [] else CallsEs(cases[0].values) + CallsSs(cases[0].body) + CallsCases(cases[1..])
  }

  function CallsParams(ps: seq<Param>): seq<Callee> {
    if ps == [] then [] else CallsO(ps[0].defaultValue) + CallsParams(ps[1..])
  }

  function CallsInit(init: ConstructorInit): seq<Callee> {
    match init
    case FieldInit(_, v) => CallsE(v)
    case BaseInit(_, _, args) => CallsEs(args)
  }

  function CallsInits(inits: seq<ConstructorInit>): seq<Callee> {
    if inits == [] then [] else CallsInit(inits[0]) + CallsInits(inits[1..])
  }

  /** The calls of a declaration: parameter defaults, initializers, body. */
  function CallsOfFunction(f: Function): seq<Callee> { CallsParams(f.params) + CallsSs(f.body) }

  function CallsOfMethod(m: Method): seq<Callee> {
    CallsParams(m.params) + if m.body.Some? then CallsSs(m.body.value) else []
  }

  function CallsOfConstructor(c: Constructor): seq<Callee> {
    CallsParams(c.params) + CallsInits(c.inits) + CallsSs(c.body)
  }

  // ----- equal but for the names of calls -----

  /** A call may get another name; no other node changes. */
  ghost predicate OnlyCallName(e: Expr, d: Expr) {
    e == d || (e.Call? && d.Call? && d == e.(calleeName := d.calleeName))
  }

  ghost function Renaming(): Rule {
    Rule((t, u) => t == u, (usr, s, z) => s == z, OnlyCallName, false)
  }

  ghost predicate SameParams(ps: seq<Param>, qs: seq<Param>) {
    |qs| == |ps|
    && forall i | 0 <= i < |ps| ::
         qs[i] == ps[i].(defaultValue := qs[i].defaultValue)
         && OptionTo(Renaming(), ps[i].defaultValue, qs[i].defaultValue)
  }

  ghost predicate SameInit(x: ConstructorInit, y: ConstructorInit) {
    match x
    case FieldInit(n, v) => y.FieldInit? && y.name == n && ExprTo(Renaming(), v, y.value)
    case BaseInit(u, n, args) => y.BaseInit? && y.usr == u && y.name == n && ExprsTo(Renaming(), args, y.args)
  }

  ghost predicate SameInits(xs: seq<ConstructorInit>, ys: seq<ConstructorInit>) {
    |ys| == |xs| && forall i | 0 <= i < |xs| :: SameInit(xs[i], ys[i])
  }

  ghost predicate SameFunction(x: Function, y: Function) {
    && y == x.(name := y.name, params := y.params, body := y.body)
    && SameParams(x.params, y.params) && StmtsTo(Renaming(), x.body, y.body)
  }

  ghost predicate SameMethod(x: Method, y: Method) {
    && y == x.(name := y.name, params := y.params, body := y.body)
    && SameParams(x.params, y.params) && x.body.Some? == y.body.Some?
    && (x.body.Some? ==> StmtsTo(Renaming(), x.body.value, y.body.value))
  }

  ghost predicate SameConstructor(x: Constructor, y: Constructor) {
    && y == x.(params := y.params, inits := y.inits, body := y.body)
    && SameParams(x.params, y.params) && SameInits(x.inits, y.inits) && StmtsTo(Renaming(), x.body, y.body)
  }

  ghost predicate SameRecord(x: Record, y: Record) {
    && y == x.(methods := y.methods, constructors := y.constructors)
    && |y.methods| == |x.methods| && |y.constructors| == |x.constructors|
    && (forall i | 0 <= i < |x.methods| :: SameMethod(x.methods[i], y.methods[i]))
    && (forall i | 0 <= i < |x.constructors| :: SameConstructor(x.constructors[i], y.constructors[i]))
  }

  /** Equal but for the names of functions, methods and calls. */
  ghost predicate SameButNames(fs: seq<Function>, rs: seq<Record>, gs: seq<Function>, ss: seq<Record>) {
    && |gs| == |fs| && |ss| == |rs|
    && (forall i | 0 <= i < |fs| :: SameFunction(fs[i], gs[i]))
    && (forall i | 0 <= i < |rs| :: SameRecord(rs[i], ss[i]))
  }

  // ----- how calls are spelled -----

  ghost predicate SpelledBy(names: string -> string, calls: seq<Callee>) {
    forall i | 0 <= i < |calls| :: calls[i].name == names(calls[i].usr)
  }

  /** Every function, method and walked call is spelled as `names` says. */
  ghost predicate Consistent(names: string -> string, fs: seq<Function>, rs: seq<Record>) {
    && (forall i | 0 <= i < |fs| :: fs[i].name == names(fs[i].usr) && SpelledBy(names, CallsOfFunction(fs[i])))
    && (forall i | 0 <= i < |rs| :: RecordConsistent(names, rs[i]))
  }

  ghost predicate RecordConsistent(names: string -> string, r: Record) {
    && (forall j | 0 <= j < |r.methods| ::
          r.methods[j].name == names(r.methods[j].usr) && SpelledBy(names, CallsOfMethod(r.methods[j])))
    && (forall j | 0 <= j < |r.constructors| :: SpelledBy(names, CallsOfConstructor(r.constructors[j])))
  }

  /** The same calls in the same order, each under the name the renaming has for its usr, if any. */
  ghost predicate Respelt(renames: map<string, string>, before: seq<Callee>, after: seq<Callee>) {
    |after| == |before|
    && forall i | 0 <= i < |before| ::
         after[i] == Callee(before[i].usr, NameIn(renames, before[i].usr, before[i].name))
  }

  function NameIn(renames: map<string, string>, usr: string, name: string): string {
    if usr in renames then renames[usr] else name
  }

  ghost predicate FunctionRenamed(renames: map<string, string>, x: Function, y: Function) {
    && SameFunction(x, y) && y.name == NameIn(renames, x.usr, x.name)
    && Respelt(renames, CallsOfFunction(x), CallsOfFunction(y))
  }

  ghost predicate MethodRenamed(renames: map<string, string>, x: Method, y: Method) {
    && SameMethod(x, y) && y.name == NameIn(renames, x.usr, x.name)
    && Respelt(renames, CallsOfMethod(x), CallsOfMethod(y))
  }

  ghost predicate ConstructorRenamed(renames: map<string, string>, x: Constructor, y: Constructor) {
    SameConstructor(x, y) && Respelt(renames, CallsOfConstructor(x), CallsOfConstructor(y))
  }

  /** Methods and constructors follow the renaming; everything else stays, the destructor too. */
  ghost predicate RecordRenamed(renames: map<string, string>, x: Record, y: Record) {
    && SameRecord(x, y)
    && (forall j | 0 <= j < |x.methods| :: MethodRenamed(renames, x.methods[j], y.methods[j]))
    && (forall j | 0 <= j < |x.constructors| :: ConstructorRenamed(renames, x.constructors[j], y.constructors[j]))
  }

  ghost predicate ModuleRenamed(renames: map<string, string>, fs: seq<Function>, rs: seq<Record>, gs: seq<Function>,
                                ss: seq<Record>) {
    && |gs| == |fs| && |ss| == |rs|
    && (forall i | 0 <= i < |fs| :: FunctionRenamed(renames, fs[i], gs[i]))
    && (forall i | 0 <= i < |rs| :: RecordRenamed(renames, rs[i], ss[i]))
  }
}
