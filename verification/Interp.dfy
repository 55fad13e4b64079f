/**
 A big-step interpreter for the IR: the meaning that the rewriting passes have
 to preserve.

 Local variables live in a stack of block frames, objects and statics in a
 store that also records the trace of observable events.  Whatever a call, a
 constructor or a copy does to the store is the arbitrary total function
 `World.invoke`; class membership is the arbitrary relation `World.subclass`.
 Loops (and jumps between switch cases) consume `fuel`; running out is an
 outcome of its own, so a program that never ends is one that is `OutOfFuel`
 for every fuel.

 A lambda evaluates to a closure named by the place it was written at and the
 values it captured, each name and `this` once, in order of first occurrence.
 */
module Interp {
  import opened Wrappers
  import opened Ir
  import opened Occurrences

  datatype Value =
    | IntV(i: int) | BoolV(b: bool) | StrV(s: string) | NullV
    | ObjV(id: nat)
    | ListV(items: seq<Value>)
    | ClosV(code: Origin, captured: seq<Value>)

  datatype Instance = Instance(cls: string, fields: map<string, Value>)
  datatype Event = Event(what: string, values: seq<Value>)
  datatype Store = Store(heap: map<nat, Instance>, statics: map<string, Value>, trace: seq<Event>)

  /** Innermost frame first. */
  type Frame = map<string, Value>
  type Env = seq<Frame>

  datatype CallSite =
    | MethodSite(usr: string, qualifier: Option<string>)
    | ConstructorSite(usr: string, index: nat)
    | AggregateSite(usr: string, fieldNames: seq<string>)
    | CopySite(usr: string)

  datatype Result = Val(v: Value) | Err(thrown: Value)
  datatype Invoked = Invoked(st: Store, r: Result)
  datatype World = World(invoke: (CallSite, Option<Value>, seq<Value>, Store) -> Invoked,
                         subclass: (string, string) -> bool)

  datatype ERes = ERes(env: Env, st: Store, r: Result)
  datatype Results = Vals(vs: seq<Value>) | Failed(thrown: Value)
  datatype ESRes = ESRes(env: Env, st: Store, r: Results)

  datatype Outcome =
    | Normal | Returned(value: Value) | Threw(value: Value)
    | Broke | Continued | Jumped(tag: string) | OutOfFuel
  datatype Res = Res(env: Env, st: Store, out: Outcome)

  const Stuck := StrV("stuck")

  // ----- frames -----

  function Lookup(env: Env, name: string): Option<Value> {
    if env == [] then None
    else if name in env[0] then Some(env[0][name])
    else Lookup(env[1..], name)
  }

  /** Overwrites the innermost binding of `name`; no binding, no change. */
  function Update(env: Env, name: string, v: Value): Env {
    if env == [] then []
    else if name in env[0] then [env[0][name := v]] + env[1..]
    else [env[0]] + Update(env[1..], name, v)
  }

  function Declare(env: Env, name: string, v: Value): Env {
    if env == [] then [map[name := v]] else [env[0][name := v]] + env[1..]
  }

  function Pop(env: Env): Env {
    if env == [] then [] else env[1..]
  }

  /** A name is a local if some frame binds it, else a static. */
  function Read(env: Env, st: Store, name: string): Result {
    match Lookup(env, name)
    case Some(v) => Val(v)
    case None => if name in st.statics then Val(st.statics[name]) else Err(Stuck)
  }

  function Write(env: Env, st: Store, name: string, v: Value): ERes {
    if Lookup(env, name).Some? then ERes(Update(env, name, v), st, Val(v))
    else if name in st.statics then ERes(env, st.(statics := st.statics[name := v]), Val(v))
    else ERes(env, st, Err(Stuck))
  }

  function ReadField(st: Store, target: Value, field: string): Result {
    if target.ObjV? && target.id in st.heap && field in st.heap[target.id].fields
    then Val(st.heap[target.id].fields[field]) else Err(Stuck)
  }

  function WriteField(env: Env, st: Store, target: Value, field: string, v: Value): ERes {
    if target.ObjV? && target.id in st.heap
    then var o := st.heap[target.id];
         ERes(env, st.(heap := st.heap[target.id := o.(fields := o.fields[field := v])]), Val(v))
    else ERes(env, st, Err(Stuck))
  }

  // ----- values -----

  predicate IsA(w: World, st: Store, v: Value, ty: Type) {
    match ty
    case Int => v.IntV?
    case Bool => v.BoolV?
    case Str => v.StrV?
    case List(_) => v.ListV?
    case Nullable(t) => v.NullV? || IsA(w, st, v, t)
    case Object => !v.NullV?
    case Record(usr, _) => v.ObjV? && v.id in st.heap && w.subclass(st.heap[v.id].cls, usr)
    case _ => false
  }

  /** The strict operators; `And` and `Or` never get here. */
  function Apply(op: BinaryOp, a: Value, b: Value): Result {
    match op
    case Eq => Val(BoolV(a == b))
    case Ne => Val(BoolV(a != b))
    case _ => if a.IntV? && b.IntV? then IntOp(op, a.i, b.i) else Err(Stuck)
  }

  function IntOp(op: BinaryOp, a: int, b: int): Result {
    match op
    case Add => Val(IntV(a + b))
    case Sub => Val(IntV(a - b))
    case Mul => Val(IntV(a * b))
    case Lt => Val(BoolV(a < b))
    case Le => Val(BoolV(a <= b))
    case Gt => Val(BoolV(a > b))
    case Ge => Val(BoolV(a >= b))
    case _ => Err(Stuck)
  }

  // ----- closures -----

  /** The value one occurrence contributes to a closure: nothing for a name the
      lambda binds itself, for a static, or for a declaration. */
  function CaptureOne(o: Occ, bound: set<string>, env: Env, self: Option<Value>): seq<Value> {
    match o
    case Use(n) => if n !in bound && Lookup(env, n).Some? then [Lookup(env, n).value] else []
    case Put(n) => if n !in bound && Lookup(env, n).Some? then [Lookup(env, n).value] else []
    case Self => if self.Some? then [self.value] else []
    case InDefault(inner) => CaptureOne(inner, bound, env, self)
    case Decl(_) => []
    case PutSelf => []
  }

  function Capture(os: seq<Occ>, bound: set<string>, env: Env, self: Option<Value>): seq<Value> {
    if os == [] then [] else CaptureOne(os[0], bound, env, self) + Capture(os[1..], bound, env, self)
  }

  function Closure(params: seq<Param>, body: seq<Stmt>, origin: Origin, env: Env, self: Option<Value>): Value {
    var os := ParamOccs(params) + StmtsOccs(body);
    ClosV(origin, Capture(Firsts(os, {}), DeclaredNames(os), env, self))
  }

  // ----- expressions -----

  function Invoke(w: World, site: CallSite, receiver: Option<Value>, args: ESRes): ERes {
    match args.r
    case Failed(v) => ERes(args.env, args.st, Err(v))
    case Vals(vs) => var i := w.invoke(site, receiver, vs, args.st); ERes(args.env, i.st, i.r)
  }

  function EvalExpr(w: World, e: Expr, env: Env, st: Store, self: Option<Value>): ERes
    decreases e, 1
  {
    match e
    case IntLiteral(i, _) => ERes(env, st, Val(IntV(i)))
    case BoolLiteral(b, _) => ERes(env, st, Val(BoolV(b)))
    case StringLiteral(s, _) => ERes(env, st, Val(StrV(s)))
    case NullLiteral(_) => ERes(env, st, Val(NullV))
    case Ref(n, _, _) => ERes(env, st, Read(env, st, n))
    case This(_, _) => ERes(env, st, if self.Some? then Val(self.value) else Err(Stuck))
    case Binary(op, lhs, rhs, _, _) => EvalBinary(w, e, env, st, self)
    case Conditional(condition, thenExpr, elseExpr, _, _) =>
      var c := EvalExpr(w, condition, env, st, self);
      if c.r.Err? then c
      else if c.r.v == BoolV(true) then EvalExpr(w, thenExpr, c.env, c.st, self)
      else if c.r.v == BoolV(false) then EvalExpr(w, elseExpr, c.env, c.st, self)
      else ERes(c.env, c.st, Err(Stuck))
    case Is(operand, ty, _) =>
      var o := EvalExpr(w, operand, env, st, self);
      if o.r.Err? then o else ERes(o.env, o.st, Val(BoolV(IsA(w, o.st, o.r.v, ty))))
    case AssignExpr(target, rvalue, _, _) => EvalAssign(w, e, env, st, self)
    case FieldAccess(target, field, _, _) =>
      var t := EvalExpr(w, target, env, st, self);
      if t.r.Err? then t else ERes(t.env, t.st, ReadField(t.st, t.r.v, field))
    case Call(receiver, base, usr, _, args, _, _) =>
      var site := MethodSite(usr, if base.Some? then Some(base.value.usr) else None);
      (match receiver
       case None => Invoke(w, site, None, EvalExprs(w, args, env, st, self))
       case Some(t) =>
         var t := EvalExpr(w, t, env, st, self);
         if t.r.Err? then t else Invoke(w, site, Some(t.r.v), EvalExprs(w, args, t.env, t.st, self)))
    case RecordConstruct(usr, _, names, args, _) =>
      Invoke(w, AggregateSite(usr, names), None, EvalExprs(w, args, env, st, self))
    case RecordCopy(target, usr, _, _) =>
      var t := EvalExpr(w, target, env, st, self);
      if t.r.Err? then t else Invoke(w, CopySite(usr), None, ESRes(t.env, t.st, Vals([t.r.v])))
    case ConstructorCall(usr, _, index, args, _) =>
      Invoke(w, ConstructorSite(usr, index), None, EvalExprs(w, args, env, st, self))
    case Lambda(params, body, _, origin) => ERes(env, st, Val(Closure(params, body, origin, env, self)))
    case UnsupportedTyped(reason, _, _) => ERes(env, st, Err(StrV(reason)))
  }

  function EvalBinary(w: World, e: Expr, env: Env, st: Store, self: Option<Value>): ERes
    requires e.Binary?
    decreases e, 0
  {
    var l := EvalExpr(w, e.lhs, env, st, self);
    if l.r.Err? then l
    else if e.op == And && l.r.v == BoolV(false) then l
    else if e.op == Or && l.r.v == BoolV(true) then l
    else
      var r := EvalExpr(w, e.rhs, l.env, l.st, self);
      if r.r.Err? || e.op == And || e.op == Or then r
      else ERes(r.env, r.st, Apply(e.op, l.r.v, r.r.v))
  }

  function EvalAssign(w: World, e: Expr, env: Env, st: Store, self: Option<Value>): ERes
    requires e.AssignExpr?
    decreases e, 0
  {
    match e.target
    case Ref(n, _, _) =>
      var v := EvalExpr(w, e.rvalue, env, st, self);
      if v.r.Err? then v else Write(v.env, v.st, n, v.r.v)
    case FieldAccess(target, field, _, _) =>
      var t := EvalExpr(w, target, env, st, self);
      if t.r.Err? then t
      else
        var v := EvalExpr(w, e.rvalue, t.env, t.st, self);
        if v.r.Err? then v else WriteField(v.env, v.st, t.r.v, field, v.r.v)
    case _ => ERes(env, st, Err(Stuck))
  }

  /** Left to right, stopping at the first failure. */
  function EvalExprs(w: World, es: seq<Expr>, env: Env, st: Store, self: Option<Value>): ESRes
    decreases es, 0
  {
    if es == [] then ESRes(env, st, Vals([]))
    else
      var head := EvalExpr(w, es[0], env, st, self);
      match head.r
      case Err(v) => ESRes(head.env, head.st, Failed(v))
      case Val(v) =>
        var tail := EvalExprs(w, es[1..], head.env, head.st, self);
        if tail.r.Failed? then tail else ESRes(tail.env, tail.st, Vals([v] + tail.r.vs))
  }

  // ----- statements -----

  function Then(r: ERes): Res {
    Res(r.env, r.st, if r.r.Err? then Threw(r.r.thrown) else Normal)
  }

  function ExecStmts(w: World, fuel: nat, ss: seq<Stmt>, env: Env, st: Store, self: Option<Value>): Res
    decreases fuel, ss, 0
  {
    if ss == [] then Res(env, st, Normal)
    else
      var r := ExecStmt(w, fuel, ss[0], env, st, self);
      if r.out.Normal? then ExecStmts(w, fuel, ss[1..], r.env, r.st, self) else r
  }

  /** Runs `ss` in a frame of its own, which starts as `frame`. */
  function ExecBlock(w: World, fuel: nat, ss: seq<Stmt>, frame: Frame, env: Env, st: Store, self: Option<Value>): Res
    decreases fuel, ss, 1
  {
    var r := ExecStmts(w, fuel, ss, [frame] + env, st, self);
    Res(Pop(r.env), r.st, r.out)
  }

  function ExecStmt(w: World, fuel: nat, s: Stmt, env: Env, st: Store, self: Option<Value>): Res
    decreases fuel, s, 5
  {
    match s
    case Return(None) => Res(env, st, Returned(NullV))
    case Return(Some(e)) =>
      var v := EvalExpr(w, e, env, st, self);
      Res(v.env, v.st, if v.r.Err? then Threw(v.r.thrown) else Returned(v.r.v))
    case VarDecl(n, _, None) => Res(Declare(env, n, NullV), st, Normal)
    case VarDecl(n, _, Some(e)) =>
      var v := EvalExpr(w, e, env, st, self);
      if v.r.Err? then Then(v) else Res(Declare(v.env, n, v.r.v), v.st, Normal)
    case Assign(n, e) =>
      var v := EvalExpr(w, e, env, st, self);
      if v.r.Err? then Then(v) else Then(Write(v.env, v.st, n, v.r.v))
    case FieldAssign(target, field, e) =>
      var t := EvalExpr(w, target, env, st, self);
      if t.r.Err? then Then(t)
      else
        var v := EvalExpr(w, e, t.env, t.st, self);
        if v.r.Err? then Then(v) else Then(WriteField(v.env, v.st, t.r.v, field, v.r.v))
    case If(condition, thenBranch, elseBranch) =>
      var c := EvalExpr(w, condition, env, st, self);
      if c.r == Val(BoolV(true)) then ExecBlock(w, fuel, thenBranch, map[], c.env, c.st, self)
      else if c.r == Val(BoolV(false)) then ExecBlock(w, fuel, elseBranch, map[], c.env, c.st, self)
      else Res(c.env, c.st, Threw(if c.r.Err? then c.r.thrown else Stuck))
    case While(_, _) => ExecWhile(w, fuel, s, env, st, self)
    case DoWhile(_, _) => ExecDoWhile(w, fuel, s, env, st, self)
    case For(start, _, _, _) =>
      var r := if start.None? then Res([map[]] + env, st, Normal)
               else ExecStmt(w, fuel, start.value, [map[]] + env, st, self);
      if !r.out.Normal? then Res(Pop(r.env), r.st, r.out)
      else var loop := ExecFor(w, fuel, s, r.env, r.st, self); Res(Pop(loop.env), loop.st, loop.out)
    case ForEach(_, _, iterable, _) =>
      var v := EvalExpr(w, iterable, env, st, self);
      if v.r.Err? || !v.r.v.ListV? then Res(v.env, v.st, Threw(if v.r.Err? then v.r.thrown else Stuck))
      else ExecForEach(w, fuel, s, v.r.v.items, v.env, v.st, self)
    case Break => Res(env, st, Broke)
    case Continue => Res(env, st, Continued)
    case ContinueLabel(t) => Res(env, st, Jumped(t))
    case ExprStmt(e) => Then(EvalExpr(w, e, env, st, self))
    case Throw(e) =>
      var v := EvalExpr(w, e, env, st, self);
      Res(v.env, v.st, Threw(if v.r.Err? then v.r.thrown else v.r.v))
    case TryCatch(tryBody, catchType, catchVar, catchBody) =>
      var r := ExecBlock(w, fuel, tryBody, map[], env, st, self);
      if r.out.Threw? && IsA(w, r.st, r.out.value, catchType)
      then ExecBlock(w, fuel, catchBody, map[catchVar := r.out.value], r.env, r.st, self)
      else r
    case TryFinally(tryBody, finallyBody) =>
      var r := ExecBlock(w, fuel, tryBody, map[], env, st, self);
      if r.out.OutOfFuel? then r
      else
        var f := ExecBlock(w, fuel, finallyBody, map[], r.env, r.st, self);
        if f.out.Normal? then Res(f.env, f.st, r.out) else f
    case Switch(scrutinee, cases, _, _) =>
      var v := EvalExpr(w, scrutinee, env, st, self);
      if v.r.Err? then Then(v)
      else
        var sel := SelectCase(w, cases, v.r.v, v.env, v.st, self);
        if sel.failed.Some? then Res(sel.env, sel.st, Threw(sel.failed.value))
        else ExecCase(w, fuel, s, sel.index, sel.env, sel.st, self)
    case UnsupportedStmt(reason) => Res(env, st, Threw(StrV(reason)))
  }

  predicate Leaves(out: Outcome) {
    out.Returned? || out.Threw? || out.Jumped? || out.OutOfFuel?
  }

  function ExecWhile(w: World, fuel: nat, s: Stmt, env: Env, st: Store, self: Option<Value>): Res
    requires s.While?
    decreases fuel, s, 0
  {
    var c := EvalExpr(w, s.condition, env, st, self);
    if c.r == Val(BoolV(false)) then Res(c.env, c.st, Normal)
    else if c.r != Val(BoolV(true)) then Res(c.env, c.st, Threw(if c.r.Err? then c.r.thrown else Stuck))
    else if fuel == 0 then Res(c.env, c.st, OutOfFuel)
    else
      var r := ExecBlock(w, fuel, s.body, map[], c.env, c.st, self);
      if r.out.Broke? then Res(r.env, r.st, Normal)
      else if Leaves(r.out) then r
      else ExecWhile(w, fuel - 1, s, r.env, r.st, self)
  }

  function ExecDoWhile(w: World, fuel: nat, s: Stmt, env: Env, st: Store, self: Option<Value>): Res
    requires s.DoWhile?
    decreases fuel, s, 0
  {
    if fuel == 0 then Res(env, st, OutOfFuel)
    else
      var r := ExecBlock(w, fuel, s.body, map[], env, st, self);
      if r.out.Broke? then Res(r.env, r.st, Normal)
      else if Leaves(r.out) then r
      else
        var c := EvalExpr(w, s.condition, r.env, r.st, self);
        if c.r == Val(BoolV(false)) then Res(c.env, c.st, Normal)
        else if c.r != Val(BoolV(true)) then Res(c.env, c.st, Threw(if c.r.Err? then c.r.thrown else Stuck))
        else ExecDoWhile(w, fuel - 1, s, c.env, c.st, self)
  }

  function ExecIncrement(w: World, fuel: nat, s: Stmt, env: Env, st: Store, self: Option<Value>): Res
    requires s.For?
    decreases fuel, s, 0
  {
    if s.increment.None? then Res(env, st, Normal) else ExecStmt(w, fuel, s.increment.value, env, st, self)
  }

  function ExecFor(w: World, fuel: nat, s: Stmt, env: Env, st: Store, self: Option<Value>): Res
    requires s.For?
    decreases fuel, s, 1
  {
    var c := if s.test.None? then ERes(env, st, Val(BoolV(true))) else EvalExpr(w, s.test.value, env, st, self);
    if c.r == Val(BoolV(false)) then Res(c.env, c.st, Normal)
    else if c.r != Val(BoolV(true)) then Res(c.env, c.st, Threw(if c.r.Err? then c.r.thrown else Stuck))
    else if fuel == 0 then Res(c.env, c.st, OutOfFuel)
    else
      var r := ExecBlock(w, fuel, s.body, map[], c.env, c.st, self);
      if r.out.Broke? then Res(r.env, r.st, Normal)
      else if Leaves(r.out) then r
      else
        var i := ExecIncrement(w, fuel, s, r.env, r.st, self);
        if !i.out.Normal? then i else ExecFor(w, fuel - 1, s, i.env, i.st, self)
  }

  function ExecForEach(w: World, fuel: nat, s: Stmt, items: seq<Value>, env: Env, st: Store, self: Option<Value>): Res
    requires s.ForEach?
    decreases fuel, s, 0, |items|
  {
    if items == [] then Res(env, st, Normal)
    else
      var r := ExecBlock(w, fuel, s.body, map[s.name := items[0]], env, st, self);
      if r.out.Broke? then Res(r.env, r.st, Normal)
      else if Leaves(r.out) then r
      else ExecForEach(w, fuel, s, items[1..], r.env, r.st, self)
  }

  /** The first case one of whose values equals `v`; `|cases|` stands for `default`. */
  datatype Selected = Selected(env: Env, st: Store, failed: Option<Value>, index: nat)

  function SelectCase(w: World, cases: seq<SwitchCase>, v: Value, env: Env, st: Store, self: Option<Value>): Selected
    decreases cases
  {
    if cases == [] then Selected(env, st, None, 0)
    else
      var vs := EvalExprs(w, cases[0].values, env, st, self);
      if vs.r.Failed? then Selected(vs.env, vs.st, Some(vs.r.thrown), 0)
      else if v in vs.r.vs then Selected(vs.env, vs.st, None, 0)
      else var rest := SelectCase(w, cases[1..], v, vs.env, vs.st, self); rest.(index := rest.index + 1)
  }

  function LabelIndex(cases: seq<SwitchCase>, tag: string): Option<nat> {
    if cases == [] then None
    else if cases[0].tag == Some(tag) then Some(0)
    else match LabelIndex(cases[1..], tag)
      case None => None
      case Some(i) => Some(i + 1)
  }

  function ExecCaseBody(w: World, fuel: nat, s: Stmt, index: nat, env: Env, st: Store, self: Option<Value>): Res
    requires s.Switch?
    decreases fuel, s, 0
  {
    if index < |s.cases| then ExecBlock(w, fuel, s.cases[index].body, map[], env, st, self)
    else if s.hasDefault then ExecBlock(w, fuel, s.default, map[], env, st, self)
    else Res(env, st, Normal)
  }

  /** Runs one case and whatever cases it jumps on to; falling off its end ends the switch. */
  function ExecCase(w: World, fuel: nat, s: Stmt, index: nat, env: Env, st: Store, self: Option<Value>): Res
    requires s.Switch?
    decreases fuel, s, 1
  {
    var r := ExecCaseBody(w, fuel, s, index, env, st, self);
    if r.out.Broke? then Res(r.env, r.st, Normal)
    else if !r.out.Jumped? then r
    else match LabelIndex(s.cases, r.out.tag)
      case None => r
      case Some(target) =>
        if fuel == 0 then Res(r.env, r.st, OutOfFuel) else ExecCase(w, fuel - 1, s, target, r.env, r.st, self)
  }
}
