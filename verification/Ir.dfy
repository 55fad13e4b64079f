/**
 The intermediate representation the whole-program passes rewrite: types,
 expressions, statements, and the functions and records that hold them.

 Every expression carries the C++ origin it was lowered from; statement
 origins are not modelled.  The field initializers of a `RecordConstruct` are
 kept as two parallel lists, and an absent
 `default:` as `hasDefault == false`.
 */
module Ir {
  import opened Wrappers

  datatype Origin = Origin(file: string, line: nat, column: nat)

  datatype Type =
    | Int | Bool | Double | Void | Str | Bytes | ByteCursor | Object
    | Record(usr: string, name: string)
    | Enum(usr: string, name: string)
    | List(element: Type)
    | Set(element: Type)
    | Nullable(element: Type)
    | ListCursor(element: Type)
    | Map(key: Type, value: Type)
    | Pair(first: Type, second: Type)
    | Callback(result: Type, parameters: seq<Type>)
    | Tuple(elements: seq<Type>)
    | Unsupported(spelling: string)

  datatype BaseClass = BaseClass(usr: string, name: string)

  datatype BinaryOp = Add | Sub | Mul | Lt | Le | Gt | Ge | Eq | Ne | And | Or

  datatype Expr =
    | IntLiteral(value: int, origin: Origin)
    | BoolLiteral(truth: bool, origin: Origin)
    | StringLiteral(text: string, origin: Origin)
    | NullLiteral(origin: Origin)
    | Ref(name: string, ty: Type, origin: Origin)
    | This(ty: Type, origin: Origin)
    | Binary(op: BinaryOp, lhs: Expr, rhs: Expr, ty: Type, origin: Origin)
    | Conditional(condition: Expr, thenExpr: Expr, elseExpr: Expr, ty: Type, origin: Origin)
    | Is(operand: Expr, targetType: Type, origin: Origin)
    | AssignExpr(target: Expr, rvalue: Expr, ty: Type, origin: Origin)
    | FieldAccess(target: Expr, field: string, ty: Type, origin: Origin)
    | Call(receiver: Option<Expr>, baseQualifier: Option<BaseClass>, calleeUsr: string, calleeName: string,
           args: seq<Expr>, ty: Type, origin: Origin)
    | RecordConstruct(typeUsr: string, typeName: string, fieldNames: seq<string>, args: seq<Expr>, origin: Origin)
    | RecordCopy(target: Expr, typeUsr: string, typeName: string, origin: Origin)
    | ConstructorCall(typeUsr: string, typeName: string, constructorIndex: nat, args: seq<Expr>, origin: Origin)
    | Lambda(params: seq<Param>, body: seq<Stmt>, ty: Type, origin: Origin)
    | UnsupportedTyped(reason: string, ty: Type, origin: Origin)

  datatype Param = Param(name: string, ty: Type, defaultValue: Option<Expr>)

  datatype SwitchCase = SwitchCase(values: seq<Expr>, body: seq<Stmt>, tag: Option<string>)

  datatype Stmt =
    | Return(result: Option<Expr>)
    | VarDecl(name: string, ty: Type, init: Option<Expr>)
    | Assign(name: string, value: Expr)
    | FieldAssign(target: Expr, field: string, value: Expr)
    | If(condition: Expr, thenBranch: seq<Stmt>, elseBranch: seq<Stmt>)
    | While(condition: Expr, body: seq<Stmt>)
    | DoWhile(body: seq<Stmt>, condition: Expr)
    | For(start: Option<Stmt>, test: Option<Expr>, increment: Option<Stmt>, body: seq<Stmt>)
    | ForEach(name: string, ty: Type, iterable: Expr, body: seq<Stmt>)
    | Break
    | Continue
    | ContinueLabel(tag: string)
    | ExprStmt(expr: Expr)
    | Throw(value: Expr)
    | TryCatch(tryBody: seq<Stmt>, catchType: Type, catchVar: string, catchBody: seq<Stmt>)
    | TryFinally(tryBody: seq<Stmt>, finallyBody: seq<Stmt>)
    | Switch(scrutinee: Expr, cases: seq<SwitchCase>, hasDefault: bool, default: seq<Stmt>)
    | UnsupportedStmt(reason: string)

  datatype Function = Function(name: string, usr: string, params: seq<Param>, returnType: Type, body: seq<Stmt>)

  datatype Field = Field(name: string, ty: Type)

  datatype Method = Method(name: string, usr: string, params: seq<Param>, returnType: Type,
                           body: Option<seq<Stmt>>, isStatic: bool, isOverride: bool)

  datatype ConstructorInit =
    | FieldInit(name: string, value: Expr)
    | BaseInit(usr: string, name: string, args: seq<Expr>)

  datatype Constructor = Constructor(usr: string, constructorIndex: nat, params: seq<Param>,
                                     inits: seq<ConstructorInit>, body: seq<Stmt>)

  datatype Record = RecordDecl(name: string, usr: string, namespace: string,
                               fields: seq<Field>, staticFields: seq<Field>,
                               constructors: seq<Constructor>, methods: seq<Method>,
                               baseClass: Option<BaseClass>, mixins: seq<BaseClass>,
                               destructor: Option<seq<Stmt>>, origin: Origin)
  {
    /** Every base edge of the record: the single `extends` base first, then the mixins. */
    function Bases(): seq<BaseClass> {
      (if baseClass.Some? then [baseClass.value] else []) + mixins
    }
  }
}
