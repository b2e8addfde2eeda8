/** Diagnostics the validator reports: the token they point at and the rule
    that was violated. Message, sub-message and hint texts are not modelled;
    each call site of `add_error` has its own message kind. */
module Diagnostics {
  import opened Ast

  /** Constructs the JavaScript dialect forbids. */
  datatype Forbidden =
    | StaticStmt | InlineStmt | VirtualStmt | PointerOp | UnionLiteral
    | PointerTypeExpr | ReferenceType | UnionType | InlineAssembly

  /** Why a `$` (compile-time) expression is refused. */
  datatype CtReason =
    | Literal | ImportStmt | Variable | ClassStmt | ReturnStmt | ScopeStmt
    | TypeDefinition | DecoratorStmt | PassStmt | UnionDef | StaticOrInline
    | ExternStmt | EnumDef | CastExpr | ExportStmt | RaiseStmt | TryStmt
    | ExternDef | NestedCompileTime | InlineAsmBlock

  datatype Message =
    // placement at the top level of a program
    | OutsideFunction(keyword: string)
    | ResultUnused
    | CallOutsideFunction
    | ReassignOutsideFunction
    // placement inside a block
    | ImportInFunction
    | NestedInline
    | ExternFuncInFunction
    | ExternStructInFunction
    | ExternUnionInFunction
    | NestedExport
    | ExternInFunction
    | PrivateInFunction
    | Unreachable(keyword: string)
    // class bodies and method receivers
    | PrivateInClass
    | ExternStructInClass
    | ExternUnionInClass
    | MethodDefInClass
    | ExternFuncInClass
    | ReceiverMissing
    | ReceiverTyped
    | ReceiverDefault
    // qualifiers
    | Dialect(construct: Forbidden)
    | ExportMethodDef
    | ExportExternFunc
    | VirtualExternFunc
    | PrivateExternRedundant
    // expressions
    | UnexpectedToken
    | TooManyValues
    | TooFewValues
    | NotAtCompileTime(reason: CtReason)
    // parameter lists
    | VarArgFollower
    | MoreThanOneVarArg
    | VarKwargNotLast
    | EllipsisNotLast
    | LambdaDefault
    | LambdaVariadic
    | LambdaUntyped

  /** One reported violation (`PEError`): where, and which rule. */
  datatype Diagnostic = Diagnostic(tok: Token, msg: Message)

  /** No diagnostic in `ds` is a dialect violation. */
  predicate NoDialect(ds: seq<Diagnostic>) {
    forall i :: 0 <= i < |ds| ==> !ds[i].msg.Dialect?
  }
}
