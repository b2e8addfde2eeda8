/** The abstract syntax tree the validator walks.

    One constructor per AST class the validator has a `visit` overload for.
    Every node owns a token; tokens are reduced to an identity plus the one
    property of a token the validator inspects (its lexical type). */
module Ast {

  datatype Option<T> = None | Some(value: T)

  /** The lexical types the validator distinguishes: `|>` on a binary
      operation, `&` and `*` on a prefix expression. */
  datatype TokenType = TkPipeline | TkAmpersand | TkMultiply | TkOther

  /** A source token, seen only as an identity and its lexical type. */
  datatype Token = Token(id: nat, tkType: TokenType)

  /** The declared kind of a parameter (`p_paramType`). */
  datatype ParamKind = Normal | VarArgs | VarKwargs | Ellipses

  /** A parameter of a function, method, lambda or extern function. */
  datatype Param = Param(pType: Node, pName: Node, pDefault: Node, kind: ParamKind)

  /** Two children visited first-then-second: a dictionary entry, a union,
      enum or struct field, an `elif` condition with its body. */
  datatype Pair = Pair(first: Node, second: Node)

  /** A `case` of a match statement: its patterns, then its body. */
  datatype MatchCase = MatchCase(patterns: seq<Node>, body: Node)

  /** An `except` clause: the exception types, the bound name, the body. */
  datatype Handler = Handler(types: seq<Node>, binding: Node, body: Node)

  datatype Node =
    // statements
    | Program(tok: Token, statements: seq<Node>)
    | Block(tok: Token, statements: seq<Node>)
    | ClassDef(tok: Token, name: Node, parents: seq<Node>, other: seq<Node>,
               attributes: seq<Node>, methods: seq<Node>)
    | Import(tok: Token, moduleName: Node, symbols: seq<Node>)
    | FunctionDef(tok: Token, returnType: Node, name: Node, body: Node, params: seq<Param>)
    | MethodDef(tok: Token, returnType: Node, name: Node, body: Node, receiver: Param,
                params: seq<Param>)
    | ExternFuncDef(tok: Token, returnType: Node, name: Node, params: seq<Param>)
    | VariableStmt(tok: Token, name: Node, value: Node, varType: Node)
    | ConstDecl(tok: Token, name: Node, value: Node, constType: Node)
    | TypeDef(tok: Token, name: Node, baseType: Node)
    | Pass(tok: Token)
    | If(tok: Token, condition: Node, ifBody: Node, elseBody: Node, elifs: seq<Pair>)
    | Assert(tok: Token, condition: Node)
    | Static(tok: Token, body: Node)
    | Inline(tok: Token, body: Node)
    | Virtual(tok: Token, body: Node)
    | Export(tok: Token, body: Node)
    | Private(tok: Token, definition: Node)
    | Extern(tok: Token)
    | Raise(tok: Token, value: Node)
    | While(tok: Token, condition: Node, body: Node)
    | For(tok: Token, sequence: Node, body: Node, variables: seq<Node>)
    | Match(tok: Token, items: seq<Node>, defaultBody: Node, cases: seq<MatchCase>)
    | Scope(tok: Token, body: Node)
    | With(tok: Token, body: Node, values: seq<Node>, variables: seq<Node>)
    | TryExcept(tok: Token, body: Node, handlers: seq<Handler>)
    | Return(tok: Token, value: Node)
    | Continue(tok: Token)
    | Break(tok: Token)
    | Decorator(tok: Token, body: Node, items: seq<Node>)
    | AugAssign(tok: Token, name: Node, value: Node)
    | MultiAssign(tok: Token, names: seq<Node>, values: seq<Node>)
    // expressions
    | Identifier(tok: Token, ident: string)
    | IntegerLit(tok: Token)
    | DecimalLit(tok: Token)
    | StringLit(tok: Token)
    | BoolLit(tok: Token)
    | NoneLit(tok: Token)
    | NoLit(tok: Token)
    | FormattedStr(tok: Token, items: seq<Node>)
    | ListLit(tok: Token, items: seq<Node>)
    | DictLit(tok: Token, entries: seq<Pair>)
    | Access(tok: Token, container: Node, keys: seq<Node>)
    | BinaryOp(tok: Token, left: Node, right: Node)
    | Prefix(tok: Token, prefix: Token, right: Node)
    | Postfix(tok: Token, left: Node)
    | Call(tok: Token, callee: Node, items: seq<Node>)
    | GenericCall(tok: Token, callee: Node, genericTypes: seq<Node>)
    | Dot(tok: Token, owner: Node, referenced: Node)
    | Arrow(tok: Token, owner: Node, referenced: Node)
    | TernaryIf(tok: Token, ifValue: Node, ifCondition: Node, elseValue: Node)
    | TernaryFor(tok: Token, forValue: Node, forIterate: Node, variables: seq<Node>)
    | Lambda(tok: Token, body: Node, params: seq<Param>)
    | Cast(tok: Token, castType: Node, value: Node)
    | UnionLit(tok: Token, name: Node, entries: seq<Pair>)
    | EnumLit(tok: Token, name: Node, entries: seq<Pair>)
    | ExternUnion(tok: Token, name: Node, entries: seq<Pair>)
    | ExternStruct(tok: Token, name: Node, entries: seq<Pair>)
    | ExprTuple(tok: Token, items: seq<Node>)
    // the source's inputs are pairs, and only their second parts, which are
    // the ones visited, are kept
    | InlineAsm(tok: Token, output: Node, inputs: seq<Node>)
    | CompileTime(tok: Token, expression: Node)
    | DefaultArg(tok: Token, value: Node, name: Node)
    // type expressions
    | TypeExpr(tok: Token, genericTypes: seq<Node>)
    | ListType(tok: Token, elemType: Node, size: Node)
    | FunctionType(tok: Token, returnTypes: Node, argTypes: seq<Node>)
    | PointerType(tok: Token, baseType: Node)
    | RefType(tok: Token, baseType: Node)
    | TypeTuple(tok: Token, items: seq<Node>)
    | SumType(tok: Token, items: seq<Node>)
    | VarArgType(tok: Token)
    | VarKwargType(tok: Token)
    | EllipsesType(tok: Token)

  /** Control-flow statements, which may only appear inside a function. */
  predicate IsControlFlow(n: Node) {
    n.TryExcept? || n.Raise? || n.Scope? || n.With? || n.Assert? || n.Continue? ||
    n.Match? || n.For? || n.While? || n.Return? || n.If? || n.Break? || n.Pass?
  }

  /** Statements after which nothing in the same block is executed. */
  function IsTerminator(n: Node): (b: bool)
    ensures b ==> IsControlFlow(n)
  {
    n.Continue? || n.Break? || n.Pass? || n.Return?
  }

  /** The display text of a statement kind used in diagnostics: the source's
      `keyword` table, where a kind missing from the table reads as "". */
  function Keyword(n: Node): (text: string)
    ensures IsControlFlow(n) <==> text != ""
  {
    if n.Pass? then "'...'"
    else if n.If? then "'if'"
    else if n.Return? then "'return'"
    else if n.While? then "'while'"
    else if n.For? then "'for'"
    else if n.Match? then "'match'"
    else if n.Scope? then "'scope'"
    else if n.With? then "'with'"
    else if n.Assert? then "'assert'"
    else if n.Break? then "'break'"
    else if n.Continue? then "'continue'"
    else if n.Raise? then "'raise'"
    else if n.TryExcept? then "'try"
    else ""
  }
}
