/** The validator's rules as a function of the tree: `Walk(js, n, s)` is the
    validator's state after it has visited `n` starting in state `s`, with
    `js` the JavaScript-dialect flag (`m_is_js`). The state holds the
    diagnostics (`m_errors`), whether a function named `main` was seen
    (`m_has_main`) and the per-member flag `is_static_class_member`.

    Every function here threads the state through the children in the
    order the source visits them, and promises `Grows`: diagnostics are only
    ever appended, `hasMain` is never reset, the member flag never becomes
    set by visiting a node it was clear before, and outside the dialect no
    dialect diagnostic appears. Each also promises that `hasMain` is left
    as it was when no function named `main` occurs in what it visits
    (`MainFree`). */
module Rules {
  import opened Ast
  import opened Diagnostics

  datatype State = State(errors: seq<Diagnostic>, hasMain: bool, isStaticClassMember: bool)

  /** The state a fresh validator starts in. */
  const Initial: State := State([], false, false)

  /** `add_error`: append one diagnostic. */
  function Report(s: State, tok: Token, msg: Message): (r: State)
    ensures s.errors <= r.errors && |r.errors| == |s.errors| + 1
    ensures r.hasMain == s.hasMain && r.isStaticClassMember == s.isStaticClassMember
    ensures !msg.Dialect? && NoDialect(s.errors) ==> NoDialect(r.errors)
  {
    s.(errors := s.errors + [Diagnostic(tok, msg)])
  }

  function ReportIf(s: State, tok: Token, msg: Option<Message>): State {
    if msg.Some? then Report(s, tok, msg.value) else s
  }

  /** What every visit preserves (see the module comment). */
  predicate Grows(js: bool, s: State, r: State) {
    && s.errors <= r.errors
    && (s.hasMain ==> r.hasMain)
    && (!s.isStaticClassMember ==> !r.isStaticClassMember)
    && (!js && NoDialect(s.errors) ==> NoDialect(r.errors))
  }

  // ---------------------------------------------------------------------
  // Where a function named `main` can occur

  /** No function definition named `main` occurs anywhere in `n`, visited or
      not. The recursion is split into parts by the kind of `n`, each part
      stating what it asks of the children as a postcondition. */
  predicate MainFree(n: Node)
    decreases n, 1
  {
    MainFreeA(n) && MainFreeB(n) && MainFreeC(n) && MainFreeD(n) && MainFreeE(n)
  }

  /** For a node of kind `Program`, `Block`, `ClassDef`, `Import`, `FunctionDef`, `MethodDef`,
      `ExternFuncDef`, `VariableStmt`, `ConstDecl`, `TypeDef`: the part of `MainFree` that looks
      at its children, and at the name of a function definition. */
  function MainFreeA(n: Node): (b: bool)
    decreases n, 0
    ensures b && n.Program? ==> MainFreeAll(n.statements)
    ensures b && n.Block? ==> MainFreeAll(n.statements)
    ensures b && n.ClassDef? ==>
      MainFree(n.name) && MainFreeAll(n.parents) && MainFreeAll(n.other) &&
      MainFreeAll(n.attributes) && MainFreeAll(n.methods)
    ensures b && n.Import? ==> MainFree(n.moduleName) && MainFreeAll(n.symbols)
    ensures b && n.FunctionDef? ==>
      !IsMainName(n.name) && MainFree(n.returnType) && MainFree(n.name) && MainFree(n.body) &&
      MainFreeParams(n.params)
    ensures b && n.MethodDef? ==>
      MainFree(n.returnType) && MainFree(n.name) && MainFree(n.body) &&
      MainFree(n.receiver.pType) && MainFree(n.receiver.pName) && MainFree(n.receiver.pDefault) &&
      MainFreeParams(n.params)
    ensures b && n.ExternFuncDef? ==>
      MainFree(n.returnType) && MainFree(n.name) && MainFreeParams(n.params)
    ensures b && n.VariableStmt? ==> MainFree(n.name) && MainFree(n.value) && MainFree(n.varType)
    ensures b && n.ConstDecl? ==> MainFree(n.name) && MainFree(n.value) && MainFree(n.constType)
    ensures b && n.TypeDef? ==> MainFree(n.name) && MainFree(n.baseType)
  {
    var programOk := n.Program? ==> MainFreeAll(n.statements);
    var blockOk := n.Block? ==> MainFreeAll(n.statements);
    var classDefOk := n.ClassDef? ==>
      MainFree(n.name) && MainFreeAll(n.parents) && MainFreeAll(n.other) &&
      MainFreeAll(n.attributes) && MainFreeAll(n.methods);
    var importOk := n.Import? ==> MainFree(n.moduleName) && MainFreeAll(n.symbols);
    var functionDefOk := n.FunctionDef? ==>
      !IsMainName(n.name) && MainFree(n.returnType) && MainFree(n.name) && MainFree(n.body) &&
      MainFreeParams(n.params);
    var methodDefOk := n.MethodDef? ==>
      MainFree(n.returnType) && MainFree(n.name) && MainFree(n.body) &&
      MainFree(n.receiver.pType) && MainFree(n.receiver.pName) && MainFree(n.receiver.pDefault) &&
      MainFreeParams(n.params);
    var externFuncDefOk := n.ExternFuncDef? ==>
      MainFree(n.returnType) && MainFree(n.name) && MainFreeParams(n.params);
    var variableStmtOk := n.VariableStmt? ==>
      MainFree(n.name) && MainFree(n.value) && MainFree(n.varType);
    var constDeclOk := n.ConstDecl? ==>
      MainFree(n.name) && MainFree(n.value) && MainFree(n.constType);
    var typeDefOk := n.TypeDef? ==> MainFree(n.name) && MainFree(n.baseType);
    programOk && blockOk && classDefOk && importOk && functionDefOk && methodDefOk &&
    externFuncDefOk && variableStmtOk && constDeclOk && typeDefOk
  }

  /** For a node of kind `If`, `Assert`, `Static`, `Inline`, `Virtual`, `Export`, `Private`,
      `Raise`, `While`, `For`, `Match`, `Scope`, `With`, `TryExcept`, `Return`, `Decorator`,
      `AugAssign`, `MultiAssign`: the part of `MainFree` that looks at its children. */
  function MainFreeB(n: Node): (b: bool)
    decreases n, 0
    ensures b && n.If? ==>
      MainFree(n.condition) && MainFree(n.ifBody) && MainFree(n.elseBody) && MainFreePairs(n.elifs)
    ensures b && n.Assert? ==> MainFree(n.condition)
    ensures b && n.Static? ==> MainFree(n.body)
    ensures b && n.Inline? ==> MainFree(n.body)
    ensures b && n.Virtual? ==> MainFree(n.body)
    ensures b && n.Export? ==> MainFree(n.body)
    ensures b && n.Private? ==> MainFree(n.definition)
    ensures b && n.Raise? ==> MainFree(n.value)
    ensures b && n.While? ==> MainFree(n.condition) && MainFree(n.body)
    ensures b && n.For? ==> MainFree(n.sequence) && MainFree(n.body) && MainFreeAll(n.variables)
    ensures b && n.Match? ==>
      MainFreeAll(n.items) && MainFree(n.defaultBody) && MainFreeCases(n.cases)
    ensures b && n.Scope? ==> MainFree(n.body)
    ensures b && n.With? ==> MainFree(n.body) && MainFreeAll(n.values) && MainFreeAll(n.variables)
    ensures b && n.TryExcept? ==> MainFree(n.body) && MainFreeHandlers(n.handlers)
    ensures b && n.Return? ==> MainFree(n.value)
    ensures b && n.Decorator? ==> MainFree(n.body) && MainFreeAll(n.items)
    ensures b && n.AugAssign? ==> MainFree(n.name) && MainFree(n.value)
    ensures b && n.MultiAssign? ==> MainFreeAll(n.names) && MainFreeAll(n.values)
  {
    var ifOk := n.If? ==>
      MainFree(n.condition) && MainFree(n.ifBody) && MainFree(n.elseBody) && MainFreePairs(n.elifs);
    var assertOk := n.Assert? ==> MainFree(n.condition);
    var staticOk := n.Static? ==> MainFree(n.body);
    var inlineOk := n.Inline? ==> MainFree(n.body);
    var virtualOk := n.Virtual? ==> MainFree(n.body);
    var exportOk := n.Export? ==> MainFree(n.body);
    var privateOk := n.Private? ==> MainFree(n.definition);
    var raiseOk := n.Raise? ==> MainFree(n.value);
    var whileOk := n.While? ==> MainFree(n.condition) && MainFree(n.body);
    var forOk := n.For? ==> MainFree(n.sequence) && MainFree(n.body) && MainFreeAll(n.variables);
    var matchOk := n.Match? ==>
      MainFreeAll(n.items) && MainFree(n.defaultBody) && MainFreeCases(n.cases);
    var scopeOk := n.Scope? ==> MainFree(n.body);
    var withOk := n.With? ==> MainFree(n.body) && MainFreeAll(n.values) && MainFreeAll(n.variables);
    var tryExceptOk := n.TryExcept? ==> MainFree(n.body) && MainFreeHandlers(n.handlers);
    var returnOk := n.Return? ==> MainFree(n.value);
    var decoratorOk := n.Decorator? ==> MainFree(n.body) && MainFreeAll(n.items);
    var augAssignOk := n.AugAssign? ==> MainFree(n.name) && MainFree(n.value);
    var multiAssignOk := n.MultiAssign? ==> MainFreeAll(n.names) && MainFreeAll(n.values);
    ifOk && assertOk && staticOk && inlineOk && virtualOk && exportOk && privateOk && raiseOk &&
    whileOk && forOk && matchOk && scopeOk && withOk && tryExceptOk && returnOk && decoratorOk &&
    augAssignOk && multiAssignOk
  }

  /** For a node of kind `FormattedStr`, `ListLit`, `DictLit`, `Access`, `BinaryOp`, `Prefix`,
      `Postfix`, `Call`, `GenericCall`, `Dot`, `Arrow`: the part of `MainFree` that looks at its
      children. */
  function MainFreeC(n: Node): (b: bool)
    decreases n, 0
    ensures b && n.FormattedStr? ==> MainFreeAll(n.items)
    ensures b && n.ListLit? ==> MainFreeAll(n.items)
    ensures b && n.DictLit? ==> MainFreePairs(n.entries)
    ensures b && n.Access? ==> MainFree(n.container) && MainFreeAll(n.keys)
    ensures b && n.BinaryOp? ==> MainFree(n.left) && MainFree(n.right)
    ensures b && n.Prefix? ==> MainFree(n.right)
    ensures b && n.Postfix? ==> MainFree(n.left)
    ensures b && n.Call? ==> MainFree(n.callee) && MainFreeAll(n.items)
    ensures b && n.GenericCall? ==> MainFree(n.callee) && MainFreeAll(n.genericTypes)
    ensures b && n.Dot? ==> MainFree(n.owner) && MainFree(n.referenced)
    ensures b && n.Arrow? ==> MainFree(n.owner) && MainFree(n.referenced)
  {
    var formattedStrOk := n.FormattedStr? ==> MainFreeAll(n.items);
    var listLitOk := n.ListLit? ==> MainFreeAll(n.items);
    var dictLitOk := n.DictLit? ==> MainFreePairs(n.entries);
    var accessOk := n.Access? ==> MainFree(n.container) && MainFreeAll(n.keys);
    var binaryOpOk := n.BinaryOp? ==> MainFree(n.left) && MainFree(n.right);
    var prefixOk := n.Prefix? ==> MainFree(n.right);
    var postfixOk := n.Postfix? ==> MainFree(n.left);
    var callOk := n.Call? ==> MainFree(n.callee) && MainFreeAll(n.items);
    var genericCallOk := n.GenericCall? ==> MainFree(n.callee) && MainFreeAll(n.genericTypes);
    var dotOk := n.Dot? ==> MainFree(n.owner) && MainFree(n.referenced);
    var arrowOk := n.Arrow? ==> MainFree(n.owner) && MainFree(n.referenced);
    formattedStrOk && listLitOk && dictLitOk && accessOk && binaryOpOk && prefixOk && postfixOk &&
    callOk && genericCallOk && dotOk && arrowOk
  }

  /** For a node of kind `TernaryIf`, `TernaryFor`, `Lambda`, `Cast`, `UnionLit`, `EnumLit`,
      `ExternUnion`, `ExternStruct`: the part of `MainFree` that looks at its children. */
  function MainFreeD(n: Node): (b: bool)
    decreases n, 0
    ensures b && n.TernaryIf? ==>
      MainFree(n.ifValue) && MainFree(n.ifCondition) && MainFree(n.elseValue)
    ensures b && n.TernaryFor? ==>
      MainFree(n.forValue) && MainFree(n.forIterate) && MainFreeAll(n.variables)
    ensures b && n.Lambda? ==> MainFree(n.body) && MainFreeParams(n.params)
    ensures b && n.Cast? ==> MainFree(n.castType) && MainFree(n.value)
    ensures b && n.UnionLit? ==> MainFree(n.name) && MainFreePairs(n.entries)
    ensures b && n.EnumLit? ==> MainFree(n.name) && MainFreePairs(n.entries)
    ensures b && n.ExternUnion? ==> MainFree(n.name) && MainFreePairs(n.entries)
    ensures b && n.ExternStruct? ==> MainFree(n.name) && MainFreePairs(n.entries)
  {
    var ternaryIfOk := n.TernaryIf? ==>
      MainFree(n.ifValue) && MainFree(n.ifCondition) && MainFree(n.elseValue);
    var ternaryForOk := n.TernaryFor? ==>
      MainFree(n.forValue) && MainFree(n.forIterate) && MainFreeAll(n.variables);
    var lambdaOk := n.Lambda? ==> MainFree(n.body) && MainFreeParams(n.params);
    var castOk := n.Cast? ==> MainFree(n.castType) && MainFree(n.value);
    var unionLitOk := n.UnionLit? ==> MainFree(n.name) && MainFreePairs(n.entries);
    var enumLitOk := n.EnumLit? ==> MainFree(n.name) && MainFreePairs(n.entries);
    var externUnionOk := n.ExternUnion? ==> MainFree(n.name) && MainFreePairs(n.entries);
    var externStructOk := n.ExternStruct? ==> MainFree(n.name) && MainFreePairs(n.entries);
    ternaryIfOk && ternaryForOk && lambdaOk && castOk && unionLitOk && enumLitOk &&
    externUnionOk && externStructOk
  }

  /** For a node of kind `ExprTuple`, `InlineAsm`, `CompileTime`, `DefaultArg`, `TypeExpr`,
      `ListType`, `FunctionType`, `PointerType`, `RefType`, `TypeTuple`, `SumType`: the part of
      `MainFree` that looks at its children. */
  function MainFreeE(n: Node): (b: bool)
    decreases n, 0
    ensures b && n.ExprTuple? ==> MainFreeAll(n.items)
    ensures b && n.InlineAsm? ==> MainFree(n.output) && MainFreeAll(n.inputs)
    ensures b && n.CompileTime? ==> MainFree(n.expression)
    ensures b && n.DefaultArg? ==> MainFree(n.value) && MainFree(n.name)
    ensures b && n.TypeExpr? ==> MainFreeAll(n.genericTypes)
    ensures b && n.ListType? ==> MainFree(n.elemType) && MainFree(n.size)
    ensures b && n.FunctionType? ==> MainFree(n.returnTypes) && MainFreeAll(n.argTypes)
    ensures b && n.PointerType? ==> MainFree(n.baseType)
    ensures b && n.RefType? ==> MainFree(n.baseType)
    ensures b && n.TypeTuple? ==> MainFreeAll(n.items)
    ensures b && n.SumType? ==> MainFreeAll(n.items)
  {
    var exprTupleOk := n.ExprTuple? ==> MainFreeAll(n.items);
    var inlineAsmOk := n.InlineAsm? ==> MainFree(n.output) && MainFreeAll(n.inputs);
    var compileTimeOk := n.CompileTime? ==> MainFree(n.expression);
    var defaultArgOk := n.DefaultArg? ==> MainFree(n.value) && MainFree(n.name);
    var typeExprOk := n.TypeExpr? ==> MainFreeAll(n.genericTypes);
    var listTypeOk := n.ListType? ==> MainFree(n.elemType) && MainFree(n.size);
    var functionTypeOk := n.FunctionType? ==> MainFree(n.returnTypes) && MainFreeAll(n.argTypes);
    var pointerTypeOk := n.PointerType? ==> MainFree(n.baseType);
    var refTypeOk := n.RefType? ==> MainFree(n.baseType);
    var typeTupleOk := n.TypeTuple? ==> MainFreeAll(n.items);
    var sumTypeOk := n.SumType? ==> MainFreeAll(n.items);
    exprTupleOk && inlineAsmOk && compileTimeOk && defaultArgOk && typeExprOk && listTypeOk &&
    functionTypeOk && pointerTypeOk && refTypeOk && typeTupleOk && sumTypeOk
  }

  predicate MainFreeAll(ns: seq<Node>)
    decreases ns
  {
    forall i :: 0 <= i < |ns| ==> MainFree(ns[i])
  }

  predicate MainFreePair(p: Pair)
    decreases p
  {
    MainFree(p.first) && MainFree(p.second)
  }

  predicate MainFreePairs(ps: seq<Pair>)
    decreases ps
  {
    forall i :: 0 <= i < |ps| ==> MainFreePair(ps[i])
  }

  predicate MainFreeParam(p: Param)
    decreases p
  {
    MainFree(p.pType) && MainFree(p.pName) && MainFree(p.pDefault)
  }

  predicate MainFreeParams(ps: seq<Param>)
    decreases ps
  {
    forall i :: 0 <= i < |ps| ==> MainFreeParam(ps[i])
  }

  predicate MainFreeCase(c: MatchCase)
    decreases c
  {
    MainFreeAll(c.patterns) && MainFree(c.body)
  }

  predicate MainFreeCases(cs: seq<MatchCase>)
    decreases cs
  {
    forall i :: 0 <= i < |cs| ==> MainFreeCase(cs[i])
  }

  predicate MainFreeHandler(h: Handler)
    decreases h
  {
    MainFreeAll(h.types) && MainFree(h.binding) && MainFree(h.body)
  }

  predicate MainFreeHandlers(hs: seq<Handler>)
    decreases hs
  {
    forall i :: 0 <= i < |hs| ==> MainFreeHandler(hs[i])
  }

  // ---------------------------------------------------------------------
  // Classifications the rules switch on

  /** Why a statement directly in the program is refused, if it is. */
  function TopLevelViolation(st: Node): (v: Option<Message>)
    ensures v.Some? ==> !v.value.Dialect?
  {
    if IsControlFlow(st) then Some(OutsideFunction(Keyword(st)))
    else if st.GenericCall? || st.FormattedStr? || st.Lambda? || st.Dot? || st.Arrow? ||
            st.Access? || st.Prefix? || st.Cast? || st.TernaryIf? || st.DictLit? ||
            st.ListLit? || st.Identifier? || st.NoneLit? || st.BoolLit? || st.BinaryOp? ||
            st.DecimalLit? || st.IntegerLit?
    then Some(ResultUnused)
    else if st.Call? then Some(CallOutsideFunction)
    else if st.AugAssign? then Some(ReassignOutsideFunction)
    else None
  }

  /** Why a statement inside a block is refused, apart from the look-ahead
      rule for terminators. */
  function BlockViolation(st: Node): (v: Option<Message>)
    ensures v.Some? ==> !v.value.Dialect?
  {
    match st
    case Prefix(_, _, _) | TernaryIf(_, _, _, _) | DictLit(_, _) | FormattedStr(_, _) |
         Lambda(_, _, _) | ListLit(_, _) | Identifier(_, _) | NoneLit(_) | BoolLit(_) |
         DecimalLit(_) | IntegerLit(_) => Some(ResultUnused)
    case BinaryOp(t, _, _) => if t.tkType != TkPipeline then Some(ResultUnused) else None
    case Import(_, _, _) => Some(ImportInFunction)
    case Static(_, body) => if body.Inline? then Some(NestedInline) else None
    case Inline(_, _) => Some(NestedInline)
    case ExternFuncDef(_, _, _, _) => Some(ExternFuncInFunction)
    case ExternStruct(_, _, _) => Some(ExternStructInFunction)
    case ExternUnion(_, _, _) => Some(ExternUnionInFunction)
    case Export(_, _) => Some(NestedExport)
    case Extern(_) => Some(ExternInFunction)
    case Private(_, _) => Some(PrivateInFunction)
    case _ => None
  }

  /** The right-hand side of `.` and `->` that is visited rather than refused. */
  predicate IsMemberAccess(n: Node) {
    n.Identifier? || n.CompileTime? || n.Call? || n.Arrow? || n.Dot?
  }

  /** Why an expression under `$` is refused, if it is. */
  function CompileTimeViolation(x: Node): (v: Option<CtReason>)
    ensures v == Some(Literal) <==>
            x.ListLit? || x.ExprTuple? || x.DictLit? || x.IntegerLit? || x.DecimalLit? ||
            x.StringLit? || x.BoolLit? || x.NoneLit?
    ensures v == Some(NestedCompileTime) <==> x.CompileTime?
    ensures v == Some(ExternDef) <==> x.ExternStruct? || x.ExternUnion? || x.ExternFuncDef?
  {
    match x
    case ListLit(_, _) | ExprTuple(_, _) | DictLit(_, _) | IntegerLit(_) | DecimalLit(_) |
         StringLit(_) | BoolLit(_) | NoneLit(_) => Some(Literal)
    case Import(_, _, _) => Some(ImportStmt)
    case ConstDecl(_, _, _, _) | AugAssign(_, _, _) | MultiAssign(_, _, _) |
         VariableStmt(_, _, _, _) => Some(Variable)
    case ClassDef(_, _, _, _, _, _) => Some(ClassStmt)
    case Return(_, _) => Some(ReturnStmt)
    case Scope(_, _) => Some(ScopeStmt)
    case TypeDef(_, _, _) => Some(TypeDefinition)
    case Decorator(_, _, _) => Some(DecoratorStmt)
    case Pass(_) => Some(PassStmt)
    case UnionLit(_, _, _) => Some(UnionDef)
    case Static(_, _) | Inline(_, _) => Some(StaticOrInline)
    case Extern(_) => Some(ExternStmt)
    case EnumLit(_, _, _) => Some(EnumDef)
    case Cast(_, _, _) => Some(CastExpr)
    case Export(_, _) => Some(ExportStmt)
    case Raise(_, _) => Some(RaiseStmt)
    case TryExcept(_, _, _) => Some(TryStmt)
    case ExternStruct(_, _, _) | ExternUnion(_, _, _) | ExternFuncDef(_, _, _, _) => Some(ExternDef)
    case CompileTime(_, _) => Some(NestedCompileTime)
    case InlineAsm(_, _, _) => Some(InlineAsmBlock)
    case _ => None
  }

  /** The shape rule at one position of a parameter list: `t` is the
      parameter's type node, `next` the next parameter's, if there is one,
      and `hasVargs` whether a `*` parameter came earlier. */
  function ShapeViolation(t: Node, next: Option<Node>, hasVargs: bool): (v: Option<Message>)
    ensures !(t.VarArgType? || t.VarKwargType? || t.EllipsesType?) ==> v.None?
    ensures v.Some? && v.value != MoreThanOneVarArg ==> next.Some?
    ensures v == Some(MoreThanOneVarArg) <==> t.VarArgType? && next.None? && hasVargs
    ensures t.VarArgType? && next.Some? && next.value.VarKwargType? ==> v.None?
  {
    if t.VarArgType? then
      if next.Some? then (if next.value.VarKwargType? then None else Some(VarArgFollower))
      else if hasVargs then Some(MoreThanOneVarArg) else None
    else if t.VarKwargType? then (if next.Some? then Some(VarKwargNotLast) else None)
    else if t.EllipsesType? then (if next.Some? then Some(EllipsisNotLast) else None)
    else None
  }

  function ParamTypeAfter(ps: seq<Param>, i: nat): Option<Node> {
    if i + 1 < |ps| then Some(ps[i + 1].pType) else None
  }

  function NodeAfter(ns: seq<Node>, i: nat): Option<Node> {
    if i + 1 < |ns| then Some(ns[i + 1]) else None
  }

  /** The name of a function that marks the entry point. */
  function IsMainName(name: Node): (b: bool)
    ensures b ==> name.Identifier?
  {
    name.Identifier? && name.ident == "main"
  }

  /** A class method with its `static` / `inline` qualifiers taken off (at
      most one of either, then one more `inline`). */
  function Unwrapped(m: Node): (x: Node)
    ensures x == m || x < m
    ensures !x.Inline? || m.Inline? || m.Static?
    ensures MainFree(m) ==> MainFree(x)
  {
    var x := if m.Static? || m.Inline? then m.body else m;
    assert MainFree(m) ==> MainFree(x);
    if x.Inline? then x.body else x
  }

  /** The receiver rule for a function visited as a class method. */
  function Receiver(name: Node, params: seq<Param>, s: State): (r: State)
    ensures r.hasMain == s.hasMain && r.isStaticClassMember == s.isStaticClassMember
    ensures s.errors <= r.errors && |r.errors| <= |s.errors| + 2
    ensures NoDialect(s.errors) ==> NoDialect(r.errors)
    ensures r.errors == s.errors <==> |params| > 0 && params[0].pType.NoLit? && params[0].pDefault.NoLit?
  {
    if |params| == 0 then Report(s, name.tok, ReceiverMissing)
    else
      var s1 := if !params[0].pType.NoLit? then Report(s, params[0].pType.tok, ReceiverTyped) else s;
      if !params[0].pDefault.NoLit? then Report(s1, params[0].pDefault.tok, ReceiverDefault) else s1
  }

  /** The lambda-only rules for one parameter, reported at its name: no
      default, no variadic kind, and a type is required. */
  function LambdaParamChecks(x: Param, s: State): (r: State)
    ensures r.hasMain == s.hasMain && r.isStaticClassMember == s.isStaticClassMember
    ensures s.errors <= r.errors
    ensures NoDialect(s.errors) ==> NoDialect(r.errors)
  {
    var s1 := if !x.pDefault.NoLit? then Report(s, x.pName.tok, LambdaDefault) else s;
    var s2 := if x.kind != Normal then Report(s1, x.pName.tok, LambdaVariadic) else s1;
    if x.pType.NoLit? then Report(s2, x.pName.tok, LambdaUntyped) else s2
  }

  /** The lambda-only parameter rules over a whole list, in order. */
  function LambdaChecks(ps: seq<Param>, s: State): (r: State)
    ensures r.hasMain == s.hasMain && r.isStaticClassMember == s.isStaticClassMember
    ensures s.errors <= r.errors
    ensures NoDialect(s.errors) ==> NoDialect(r.errors)
    decreases ps
  {
    if ps == [] then s else LambdaChecks(ps[1..], LambdaParamChecks(ps[0], s))
  }

  // ---------------------------------------------------------------------
  // The walk

  /** Dispatch on the node's kind (`accept`): statements here, everything
      else (expressions, type expressions and leaves) in `WalkExpression`.
      Nodes with a single child or a single list of children are handled in
      the dispatch, every other kind by the function named after it. */
  function Walk(js: bool, n: Node, s: State): (r: State)
    ensures Grows(js, s, r)
    ensures MainFree(n) ==> r.hasMain == s.hasMain
    decreases n, 2
  {
    if n.Program? then TopLevel(js, n.statements, s)
    else if n.Block? then BlockFrom(js, n.statements, 0, s)
    else if n.ClassDef? then WalkClassDef(js, n, s)
    else if n.Import? then s
    else if n.FunctionDef? then WalkFunctionDef(js, n, s)
    else if n.MethodDef? then WalkMethodDef(js, n, s)
    else if n.ExternFuncDef? then WalkExternFuncDef(js, n, s)
    else if n.VariableStmt? then WalkVariable(js, n, s)
    else if n.ConstDecl? then WalkConst(js, n, s)
    else if n.TypeDef? then WalkTypeDef(js, n, s)
    else if n.If? then WalkIf(js, n, s)
    else if n.Assert? then Walk(js, n.condition, s)
    else if n.Static? then WalkStatic(js, n, s)
    else if n.Inline? then WalkInline(js, n, s)
    else if n.Virtual? then WalkVirtual(js, n, s)
    else if n.Export? then WalkExport(js, n, s)
    else if n.Private? then WalkPrivate(js, n, s)
    else if n.Raise? then Walk(js, n.value, s)
    else if n.While? then WalkWhile(js, n, s)
    else if n.For? then WalkFor(js, n, s)
    else if n.Match? then WalkMatch(js, n, s)
    else if n.Scope? then Walk(js, n.body, s)
    else if n.With? then WalkWith(js, n, s)
    else if n.TryExcept? then WalkTryExcept(js, n, s)
    else if n.Return? then Walk(js, n.value, s)
    else if n.Decorator? then WalkDecorator(js, n, s)
    else if n.AugAssign? then WalkAugAssign(js, n, s)
    else if n.MultiAssign? then WalkMultiAssign(js, n, s)
    else WalkExpression(js, n, s)
  }

  /** The expression and type-expression half of the dispatch. */
  function WalkExpression(js: bool, n: Node, s: State): (r: State)
    ensures Grows(js, s, r)
    ensures MainFree(n) ==> r.hasMain == s.hasMain
    decreases n, 1
  {
    if n.FormattedStr? then WalkAll(js, n.items, s)
    else if n.ListLit? then WalkAll(js, n.items, s)
    else if n.DictLit? then WalkPairs(js, n.entries, s)
    else if n.Access? then WalkAccess(js, n, s)
    else if n.BinaryOp? then WalkBinaryOp(js, n, s)
    else if n.Prefix? then WalkPrefix(js, n, s)
    else if n.Postfix? then Walk(js, n.left, s)
    else if n.Call? then WalkCall(js, n, s)
    else if n.GenericCall? then WalkGenericCall(js, n, s)
    else if n.Dot? then WalkMember(js, n, s)
    else if n.Arrow? then WalkMember(js, n, s)
    else if n.TernaryIf? then WalkTernaryIf(js, n, s)
    else if n.TernaryFor? then WalkTernaryFor(js, n, s)
    else if n.Lambda? then WalkLambda(js, n, s)
    else if n.Cast? then WalkCast(js, n, s)
    else if n.UnionLit? then WalkUnionLit(js, n, s)
    else if n.EnumLit? then WalkEnumLit(js, n, s)
    else if n.ExternUnion? then WalkExternUnion(js, n, s)
    else if n.ExternStruct? then WalkExternStruct(js, n, s)
    else if n.ExprTuple? then WalkAll(js, n.items, s)
    else if n.InlineAsm? then WalkInlineAsm(js, n, s)
    else if n.CompileTime? then WalkCompileTime(js, n, s)
    else if n.DefaultArg? then WalkDefaultArg(js, n, s)
    else if n.TypeExpr? then WalkAll(js, n.genericTypes, s)
    else if n.ListType? then WalkListType(js, n, s)
    else if n.FunctionType? then WalkFunctionType(js, n, s)
    else if n.PointerType? then WalkPointerType(js, n, s)
    else if n.RefType? then WalkRefType(js, n, s)
    else if n.TypeTuple? then WalkAll(js, n.items, s)
    else if n.SumType? then WalkAll(js, n.items, s)
    // leaves, which have nothing to visit, and the statements `Walk` dispatches
    else s
  }

  // ---------------------------------------------------------------------
  // One function per `visit` overload with more than one child

  function WalkClassDef(js: bool, n: Node, s: State): (r: State)
    requires n.ClassDef?
    ensures Grows(js, s, r)
    ensures MainFree(n) ==> r.hasMain == s.hasMain
    decreases n, 0
  {
    var s1 := ClassOther(js, n.other, WalkAll(js, n.parents, Walk(js, n.name, s)));
    ClassMethods(js, n.methods, WalkAll(js, n.attributes, s1))
  }

  /** A function definition: the entry-point flag is set by the name `main`,
      and the receiver rule applies when the member flag is set once the
      body has been visited; the flag is then cleared. */
  function WalkFunctionDef(js: bool, n: Node, s: State): (r: State)
    requires n.FunctionDef?
    ensures Grows(js, s, r)
    ensures MainFree(n) ==> r.hasMain == s.hasMain
    decreases n, 0
  {
    var s1 := Walk(js, n.returnType, s);
    var s2 := if IsMainName(n.name) then s1.(hasMain := true) else s1;
    var s3 := Walk(js, n.body, Walk(js, n.name, s2));
    var s4 := if s3.isStaticClassMember
              then Receiver(n.name, n.params, s3).(isStaticClassMember := false) else s3;
    Params(js, n.params, 0, false, s4)
  }

  function WalkMethodDef(js: bool, n: Node, s: State): (r: State)
    requires n.MethodDef?
    ensures Grows(js, s, r)
    ensures MainFree(n) ==> r.hasMain == s.hasMain
    decreases n, 0
  {
    var s1 := Walk(js, n.body, Walk(js, n.name, Walk(js, n.returnType, s)));
    var s2 := Walk(js, n.receiver.pType, s1);
    var s3 := Walk(js, n.receiver.pName, Walk(js, n.receiver.pDefault, s2));
    Params(js, n.params, 0, false, s3)
  }

  function WalkExternFuncDef(js: bool, n: Node, s: State): (r: State)
    requires n.ExternFuncDef?
    ensures Grows(js, s, r)
    ensures MainFree(n) ==> r.hasMain == s.hasMain
    decreases n, 0
  {
    Params(js, n.params, 0, false, Walk(js, n.name, Walk(js, n.returnType, s)))
  }

  function WalkVariable(js: bool, n: Node, s: State): (r: State)
    requires n.VariableStmt?
    ensures Grows(js, s, r)
    ensures MainFree(n) ==> r.hasMain == s.hasMain
    decreases n, 0
  {
    Walk(js, n.varType, Walk(js, n.value, Walk(js, n.name, s)))
  }

  function WalkConst(js: bool, n: Node, s: State): (r: State)
    requires n.ConstDecl?
    ensures Grows(js, s, r)
    ensures MainFree(n) ==> r.hasMain == s.hasMain
    decreases n, 0
  {
    Walk(js, n.constType, Walk(js, n.value, Walk(js, n.name, s)))
  }

  function WalkTypeDef(js: bool, n: Node, s: State): (r: State)
    requires n.TypeDef?
    ensures Grows(js, s, r)
    ensures MainFree(n) ==> r.hasMain == s.hasMain
    decreases n, 0
  {
    Walk(js, n.baseType, Walk(js, n.name, s))
  }

  function WalkIf(js: bool, n: Node, s: State): (r: State)
    requires n.If?
    ensures Grows(js, s, r)
    ensures MainFree(n) ==> r.hasMain == s.hasMain
    decreases n, 0
  {
    var s1 := Walk(js, n.elseBody, Walk(js, n.ifBody, Walk(js, n.condition, s)));
    WalkPairs(js, n.elifs, s1)
  }

  function WalkStatic(js: bool, n: Node, s: State): (r: State)
    requires n.Static?
    ensures Grows(js, s, r)
    ensures MainFree(n) ==> r.hasMain == s.hasMain
    decreases n, 0
  {
    Walk(js, n.body, if js then Report(s, n.tok, Dialect(StaticStmt)) else s)
  }

  /** The source switches on the inline statement's own kind, so its
      extern-function branch is never taken and the body is always visited. */
  function WalkInline(js: bool, n: Node, s: State): (r: State)
    requires n.Inline?
    ensures Grows(js, s, r)
    ensures MainFree(n) ==> r.hasMain == s.hasMain
    decreases n, 0
  {
    Walk(js, n.body, if js then Report(s, n.tok, Dialect(InlineStmt)) else s)
  }

  function WalkVirtual(js: bool, n: Node, s: State): (r: State)
    requires n.Virtual?
    ensures Grows(js, s, r)
    ensures MainFree(n) ==> r.hasMain == s.hasMain
    decreases n, 0
  {
    var s1 := if js then Report(s, n.tok, Dialect(VirtualStmt)) else s;
    if n.body.MethodDef? then Report(s1, n.body.tok, MethodDefInClass)
    else if n.body.ExternFuncDef? then Report(s1, n.body.tok, VirtualExternFunc)
    else Walk(js, n.body, s1)
  }

  function WalkExport(js: bool, n: Node, s: State): (r: State)
    requires n.Export?
    ensures Grows(js, s, r)
    ensures MainFree(n) ==> r.hasMain == s.hasMain
    decreases n, 0
  {
    if n.body.MethodDef? then Report(s, n.body.tok, ExportMethodDef)
    else if n.body.ExternFuncDef? then Report(s, n.body.tok, ExportExternFunc)
    else Walk(js, n.body, s)
  }

  function WalkPrivate(js: bool, n: Node, s: State): (r: State)
    requires n.Private?
    ensures Grows(js, s, r)
    ensures MainFree(n) ==> r.hasMain == s.hasMain
    decreases n, 0
  {
    var d := n.definition;
    if d.ExternStruct? || d.ExternUnion? || d.ExternFuncDef?
    then Report(s, d.tok, PrivateExternRedundant)
    else Walk(js, d, s)
  }

  function WalkWhile(js: bool, n: Node, s: State): (r: State)
    requires n.While?
    ensures Grows(js, s, r)
    ensures MainFree(n) ==> r.hasMain == s.hasMain
    decreases n, 0
  {
    Walk(js, n.body, Walk(js, n.condition, s))
  }

  function WalkFor(js: bool, n: Node, s: State): (r: State)
    requires n.For?
    ensures Grows(js, s, r)
    ensures MainFree(n) ==> r.hasMain == s.hasMain
    decreases n, 0
  {
    WalkAll(js, n.variables, Walk(js, n.body, Walk(js, n.sequence, s)))
  }

  function WalkMatch(js: bool, n: Node, s: State): (r: State)
    requires n.Match?
    ensures Grows(js, s, r)
    ensures MainFree(n) ==> r.hasMain == s.hasMain
    decreases n, 0
  {
    WalkCases(js, n.cases, Walk(js, n.defaultBody, WalkAll(js, n.items, s)))
  }

  function WalkWith(js: bool, n: Node, s: State): (r: State)
    requires n.With?
    ensures Grows(js, s, r)
    ensures MainFree(n) ==> r.hasMain == s.hasMain
    decreases n, 0
  {
    WalkAll(js, n.variables, WalkAll(js, n.values, Walk(js, n.body, s)))
  }

  function WalkTryExcept(js: bool, n: Node, s: State): (r: State)
    requires n.TryExcept?
    ensures Grows(js, s, r)
    ensures MainFree(n) ==> r.hasMain == s.hasMain
    decreases n, 0
  {
    WalkHandlers(js, n.handlers, Walk(js, n.body, s))
  }

  function WalkDecorator(js: bool, n: Node, s: State): (r: State)
    requires n.Decorator?
    ensures Grows(js, s, r)
    ensures MainFree(n) ==> r.hasMain == s.hasMain
    decreases n, 0
  {
    WalkAll(js, n.items, Walk(js, n.body, s))
  }

  function WalkAugAssign(js: bool, n: Node, s: State): (r: State)
    requires n.AugAssign?
    ensures Grows(js, s, r)
    ensures MainFree(n) ==> r.hasMain == s.hasMain
    decreases n, 0
  {
    Walk(js, n.value, Walk(js, n.name, s))
  }

  /** Values, then names, then the arity rule: one value is broadcast,
      otherwise the counts must agree. */
  function WalkMultiAssign(js: bool, n: Node, s: State): (r: State)
    requires n.MultiAssign?
    ensures Grows(js, s, r)
    ensures MainFree(n) ==> r.hasMain == s.hasMain
    decreases n, 0
  {
    var s1 := WalkAll(js, n.names, WalkAll(js, n.values, s));
    if |n.values| != 1 && |n.values| != |n.names|
    then Report(s1, n.tok, if |n.values| > |n.names| then TooManyValues else TooFewValues)
    else s1
  }

  function WalkAccess(js: bool, n: Node, s: State): (r: State)
    requires n.Access?
    ensures Grows(js, s, r)
    ensures MainFree(n) ==> r.hasMain == s.hasMain
    decreases n, 0
  {
    WalkAll(js, n.keys, Walk(js, n.container, s))
  }

  function WalkBinaryOp(js: bool, n: Node, s: State): (r: State)
    requires n.BinaryOp?
    ensures Grows(js, s, r)
    ensures MainFree(n) ==> r.hasMain == s.hasMain
    decreases n, 0
  {
    Walk(js, n.right, Walk(js, n.left, s))
  }

  function WalkPrefix(js: bool, n: Node, s: State): (r: State)
    requires n.Prefix?
    ensures Grows(js, s, r)
    ensures MainFree(n) ==> r.hasMain == s.hasMain
    decreases n, 0
  {
    var s1 := Walk(js, n.right, s);
    if js && (n.prefix.tkType == TkAmpersand || n.prefix.tkType == TkMultiply)
    then Report(s1, n.prefix, Dialect(PointerOp)) else s1
  }

  function WalkCall(js: bool, n: Node, s: State): (r: State)
    requires n.Call?
    ensures Grows(js, s, r)
    ensures MainFree(n) ==> r.hasMain == s.hasMain
    decreases n, 0
  {
    WalkAll(js, n.items, Walk(js, n.callee, s))
  }

  function WalkGenericCall(js: bool, n: Node, s: State): (r: State)
    requires n.GenericCall?
    ensures Grows(js, s, r)
    ensures MainFree(n) ==> r.hasMain == s.hasMain
    decreases n, 0
  {
    WalkAll(js, n.genericTypes, Walk(js, n.callee, s))
  }

  /** `.` and `->`: the owner is visited, then the member if it has an
      accepted shape, else the member's token is reported. */
  function WalkMember(js: bool, n: Node, s: State): (r: State)
    requires n.Dot? || n.Arrow?
    ensures Grows(js, s, r)
    ensures MainFree(n) ==> r.hasMain == s.hasMain
    decreases n, 0
  {
    var s1 := Walk(js, n.owner, s);
    if IsMemberAccess(n.referenced) then Walk(js, n.referenced, s1)
    else Report(s1, n.referenced.tok, UnexpectedToken)
  }

  function WalkTernaryIf(js: bool, n: Node, s: State): (r: State)
    requires n.TernaryIf?
    ensures Grows(js, s, r)
    ensures MainFree(n) ==> r.hasMain == s.hasMain
    decreases n, 0
  {
    Walk(js, n.elseValue, Walk(js, n.ifCondition, Walk(js, n.ifValue, s)))
  }

  function WalkTernaryFor(js: bool, n: Node, s: State): (r: State)
    requires n.TernaryFor?
    ensures Grows(js, s, r)
    ensures MainFree(n) ==> r.hasMain == s.hasMain
    decreases n, 0
  {
    WalkAll(js, n.variables, Walk(js, n.forIterate, Walk(js, n.forValue, s)))
  }

  function WalkLambda(js: bool, n: Node, s: State): (r: State)
    requires n.Lambda?
    ensures Grows(js, s, r)
    ensures MainFree(n) ==> r.hasMain == s.hasMain
    decreases n, 0
  {
    Params(js, n.params, 0, false, LambdaChecks(n.params, Walk(js, n.body, s)))
  }

  function WalkCast(js: bool, n: Node, s: State): (r: State)
    requires n.Cast?
    ensures Grows(js, s, r)
    ensures MainFree(n) ==> r.hasMain == s.hasMain
    decreases n, 0
  {
    Walk(js, n.value, Walk(js, n.castType, s))
  }

  function WalkUnionLit(js: bool, n: Node, s: State): (r: State)
    requires n.UnionLit?
    ensures Grows(js, s, r)
    ensures MainFree(n) ==> r.hasMain == s.hasMain
    decreases n, 0
  {
    if js then Report(s, n.tok, Dialect(UnionLiteral))
    else Walk(js, n.name, WalkPairs(js, n.entries, s))
  }

  function WalkEnumLit(js: bool, n: Node, s: State): (r: State)
    requires n.EnumLit?
    ensures Grows(js, s, r)
    ensures MainFree(n) ==> r.hasMain == s.hasMain
    decreases n, 0
  {
    Walk(js, n.name, WalkPairs(js, n.entries, s))
  }

  function WalkExternUnion(js: bool, n: Node, s: State): (r: State)
    requires n.ExternUnion?
    ensures Grows(js, s, r)
    ensures MainFree(n) ==> r.hasMain == s.hasMain
    decreases n, 0
  {
    if js then Report(s, n.tok, Dialect(UnionType))
    else WalkPairs(js, n.entries, Walk(js, n.name, s))
  }

  function WalkExternStruct(js: bool, n: Node, s: State): (r: State)
    requires n.ExternStruct?
    ensures Grows(js, s, r)
    ensures MainFree(n) ==> r.hasMain == s.hasMain
    decreases n, 0
  {
    WalkPairs(js, n.entries, Walk(js, n.name, s))
  }

  function WalkInlineAsm(js: bool, n: Node, s: State): (r: State)
    requires n.InlineAsm?
    ensures Grows(js, s, r)
    ensures MainFree(n) ==> r.hasMain == s.hasMain
    decreases n, 0
  {
    if js then Report(s, n.tok, Dialect(InlineAssembly))
    else WalkAll(js, n.inputs, Walk(js, n.output, s))
  }

  /** The expression under `$`, with one leading `private` taken off, is
      refused or visited; a refusal carries the token of the expression as
      written. */
  function WalkCompileTime(js: bool, n: Node, s: State): (r: State)
    requires n.CompileTime?
    ensures Grows(js, s, r)
    ensures MainFree(n) ==> r.hasMain == s.hasMain
    decreases n, 0
  {
    var e := n.expression;
    var x := if e.Private? then e.definition else e;
    assert MainFree(n) ==> MainFree(e);
    var reason := CompileTimeViolation(x);
    if reason.Some? then Report(s, e.tok, NotAtCompileTime(reason.value)) else Walk(js, x, s)
  }

  function WalkDefaultArg(js: bool, n: Node, s: State): (r: State)
    requires n.DefaultArg?
    ensures Grows(js, s, r)
    ensures MainFree(n) ==> r.hasMain == s.hasMain
    decreases n, 0
  {
    Walk(js, n.name, Walk(js, n.value, s))
  }

  function WalkListType(js: bool, n: Node, s: State): (r: State)
    requires n.ListType?
    ensures Grows(js, s, r)
    ensures MainFree(n) ==> r.hasMain == s.hasMain
    decreases n, 0
  {
    Walk(js, n.size, Walk(js, n.elemType, s))
  }

  function WalkFunctionType(js: bool, n: Node, s: State): (r: State)
    requires n.FunctionType?
    ensures Grows(js, s, r)
    ensures MainFree(n) ==> r.hasMain == s.hasMain
    decreases n, 0
  {
    ParamNodes(js, n.argTypes, 0, false, Walk(js, n.returnTypes, s))
  }

  function WalkPointerType(js: bool, n: Node, s: State): (r: State)
    requires n.PointerType?
    ensures Grows(js, s, r)
    ensures MainFree(n) ==> r.hasMain == s.hasMain
    decreases n, 0
  {
    if js then Report(s, n.tok, Dialect(PointerTypeExpr)) else Walk(js, n.baseType, s)
  }

  function WalkRefType(js: bool, n: Node, s: State): (r: State)
    requires n.RefType?
    ensures Grows(js, s, r)
    ensures MainFree(n) ==> r.hasMain == s.hasMain
    decreases n, 0
  {
    if js then Report(s, n.tok, Dialect(ReferenceType)) else Walk(js, n.baseType, s)
  }

  // ---------------------------------------------------------------------
  // Lists of children

  /** Visit every node of `ns`, in order. */
  function WalkAll(js: bool, ns: seq<Node>, s: State): (r: State)
    ensures Grows(js, s, r)
    ensures MainFreeAll(ns) ==> r.hasMain == s.hasMain
    decreases ns
  {
    if ns == [] then s else WalkAll(js, ns[1..], Walk(js, ns[0], s))
  }

  function WalkPair(js: bool, p: Pair, s: State): (r: State)
    ensures Grows(js, s, r)
    ensures MainFreePair(p) ==> r.hasMain == s.hasMain
    decreases p
  {
    Walk(js, p.second, Walk(js, p.first, s))
  }

  function WalkPairs(js: bool, ps: seq<Pair>, s: State): (r: State)
    ensures Grows(js, s, r)
    ensures MainFreePairs(ps) ==> r.hasMain == s.hasMain
    decreases ps
  {
    if ps == [] then s else WalkPairs(js, ps[1..], WalkPair(js, ps[0], s))
  }

  function WalkCase(js: bool, c: MatchCase, s: State): (r: State)
    ensures Grows(js, s, r)
    ensures MainFreeCase(c) ==> r.hasMain == s.hasMain
    decreases c
  {
    Walk(js, c.body, WalkAll(js, c.patterns, s))
  }

  function WalkCases(js: bool, cs: seq<MatchCase>, s: State): (r: State)
    ensures Grows(js, s, r)
    ensures MainFreeCases(cs) ==> r.hasMain == s.hasMain
    decreases cs
  {
    if cs == [] then s else WalkCases(js, cs[1..], WalkCase(js, cs[0], s))
  }

  function WalkHandler(js: bool, h: Handler, s: State): (r: State)
    ensures Grows(js, s, r)
    ensures MainFreeHandler(h) ==> r.hasMain == s.hasMain
    decreases h
  {
    Walk(js, h.body, Walk(js, h.binding, WalkAll(js, h.types, s)))
  }

  function WalkHandlers(js: bool, hs: seq<Handler>, s: State): (r: State)
    ensures Grows(js, s, r)
    ensures MainFreeHandlers(hs) ==> r.hasMain == s.hasMain
    decreases hs
  {
    if hs == [] then s else WalkHandlers(js, hs[1..], WalkHandler(js, hs[0], s))
  }

  // ---------------------------------------------------------------------
  // Program: top-level placement

  function TopLevelStmt(js: bool, st: Node, s: State): (r: State)
    ensures Grows(js, s, r)
    ensures MainFree(st) ==> r.hasMain == s.hasMain
    decreases st, 3
  {
    var v := TopLevelViolation(st);
    if v.Some? then Report(s, st.tok, v.value) else Walk(js, st, s)
  }

  function TopLevel(js: bool, stmts: seq<Node>, s: State): (r: State)
    ensures Grows(js, s, r)
    ensures MainFreeAll(stmts) ==> r.hasMain == s.hasMain
    decreases stmts
  {
    if stmts == [] then s else TopLevel(js, stmts[1..], TopLevelStmt(js, stmts[0], s))
  }

  // ---------------------------------------------------------------------
  // Block: placement inside a function and the look-ahead rule

  /** The effect of statement `i` of a block. */
  function BlockStep(js: bool, stmts: seq<Node>, i: nat, s: State): (r: State)
    requires i < |stmts|
    ensures Grows(js, s, r)
    ensures MainFreeAll(stmts) ==> r.hasMain == s.hasMain
    decreases stmts, 0
  {
    var st := stmts[i];
    if IsTerminator(st) && i + 1 < |stmts| then
      Report(s, stmts[i + 1].tok, Unreachable(Keyword(st)))
    else
      var v := BlockViolation(st);
      if v.Some? then Report(s, st.tok, v.value)
      else if st.Static? || st.BinaryOp? then s
      else Walk(js, st, s)
  }

  /** Statements `i..` of a block. */
  function BlockFrom(js: bool, stmts: seq<Node>, i: nat, s: State): (r: State)
    requires i <= |stmts|
    ensures Grows(js, s, r)
    ensures MainFreeAll(stmts) ==> r.hasMain == s.hasMain
    decreases stmts, |stmts| - i + 1
  {
    if i == |stmts| then s else BlockFrom(js, stmts, i + 1, BlockStep(js, stmts, i, s))
  }

  // ---------------------------------------------------------------------
  // Class definitions

  function ClassOtherStmt(js: bool, x: Node, s: State): (r: State)
    ensures Grows(js, s, r)
    ensures MainFree(x) ==> r.hasMain == s.hasMain
    decreases x, 3
  {
    if x.Private? then Report(s, x.tok, PrivateInClass)
    else if x.ExternStruct? then Report(s, x.tok, ExternStructInClass)
    else if x.ExternUnion? then Report(s, x.tok, ExternUnionInClass)
    else Walk(js, x, s)
  }

  function ClassOther(js: bool, xs: seq<Node>, s: State): (r: State)
    ensures Grows(js, s, r)
    ensures MainFreeAll(xs) ==> r.hasMain == s.hasMain
    decreases xs
  {
    if xs == [] then s else ClassOther(js, xs[1..], ClassOtherStmt(js, xs[0], s))
  }

  /** One method of a class body: a member not written `static` is visited
      with the member flag set, and the flag is cleared afterwards. */
  function ClassMember(js: bool, m: Node, s: State): (r: State)
    ensures Grows(js, s, r)
    ensures !(Unwrapped(m).MethodDef? || Unwrapped(m).ExternFuncDef?) ==> !r.isStaticClassMember
    ensures MainFree(m) ==> r.hasMain == s.hasMain
    decreases m, 3
  {
    var x := Unwrapped(m);
    if x.MethodDef? then Report(s, x.tok, MethodDefInClass)
    else if x.ExternFuncDef? then Report(s, x.tok, ExternFuncInClass)
    else
      var entry := if !m.Static? then s.(isStaticClassMember := true) else s;
      Walk(js, x, entry).(isStaticClassMember := false)
  }

  function ClassMethods(js: bool, ms: seq<Node>, s: State): (r: State)
    ensures Grows(js, s, r)
    ensures MainFreeAll(ms) ==> r.hasMain == s.hasMain
    decreases ms
  {
    if ms == [] then s else ClassMethods(js, ms[1..], ClassMember(js, ms[0], s))
  }

  // ---------------------------------------------------------------------
  // Parameter lists

  function WalkDefaultAndName(js: bool, p: Param, s: State): (r: State)
    ensures Grows(js, s, r)
    ensures MainFreeParam(p) ==> r.hasMain == s.hasMain
    decreases p
  {
    Walk(js, p.pName, Walk(js, p.pDefault, s))
  }

  function WalkParamType(js: bool, p: Param, s: State): (r: State)
    ensures Grows(js, s, r)
    ensures MainFreeParam(p) ==> r.hasMain == s.hasMain
    decreases p
  {
    Walk(js, p.pType, s)
  }

  /** Parameter `i` of `validate_parameters(std::vector<parameter>)`:
      default and name are visited, the shape rule reports at the
      parameter's own type token, then the type is visited. */
  function ParamStep(js: bool, ps: seq<Param>, i: nat, hasVargs: bool, s: State): (r: State)
    requires i < |ps|
    ensures Grows(js, s, r)
    ensures MainFreeParams(ps) ==> r.hasMain == s.hasMain
    decreases ps, 0
  {
    var s1 := WalkDefaultAndName(js, ps[i], s);
    var s2 := ReportIf(s1, ps[i].pType.tok, ShapeViolation(ps[i].pType, ParamTypeAfter(ps, i), hasVargs));
    WalkParamType(js, ps[i], s2)
  }

  function Params(js: bool, ps: seq<Param>, i: nat, hasVargs: bool, s: State): (r: State)
    requires i <= |ps|
    ensures Grows(js, s, r)
    ensures MainFreeParams(ps) ==> r.hasMain == s.hasMain
    decreases ps, |ps| - i + 1
  {
    if i == |ps| then s
    else Params(js, ps, i + 1, hasVargs || ps[i].pType.VarArgType?, ParamStep(js, ps, i, hasVargs, s))
  }

  /** Where `validate_parameters(std::vector<AstNodePtr>)` reports: at the
      next parameter, except "more than one '*'", which is at this one. */
  function ShapeToken(ns: seq<Node>, i: nat, m: Message): (tk: Token)
    requires i < |ns|
    ensures i + 1 == |ns| || m == MoreThanOneVarArg ==> tk == ns[i].tok
    ensures i + 1 < |ns| && m != MoreThanOneVarArg ==> tk == ns[i + 1].tok
  {
    if m != MoreThanOneVarArg && i + 1 < |ns| then ns[i + 1].tok else ns[i].tok
  }

  /** Parameter `i` of `validate_parameters(std::vector<AstNodePtr>)`. */
  function ParamNodeStep(js: bool, ns: seq<Node>, i: nat, hasVargs: bool, s: State): (r: State)
    requires i < |ns|
    ensures Grows(js, s, r)
    ensures MainFreeAll(ns) ==> r.hasMain == s.hasMain
    decreases ns, 0
  {
    var v := ShapeViolation(ns[i], NodeAfter(ns, i), hasVargs);
    var s1 := if v.Some? then Report(s, ShapeToken(ns, i, v.value), v.value) else s;
    Walk(js, ns[i], s1)
  }

  function ParamNodes(js: bool, ns: seq<Node>, i: nat, hasVargs: bool, s: State): (r: State)
    requires i <= |ns|
    ensures Grows(js, s, r)
    ensures MainFreeAll(ns) ==> r.hasMain == s.hasMain
    decreases ns, |ns| - i + 1
  {
    if i == |ns| then s
    else ParamNodes(js, ns, i + 1, hasVargs || ns[i].VarArgType?, ParamNodeStep(js, ns, i, hasVargs, s))
  }

  // ---------------------------------------------------------------------
  // The verdict

  /** The unit is refused when any diagnostic was reported, or when an
      entry point is required and none was seen. */
  function Refused(r: State, shouldContainMain: bool): (b: bool)
    ensures !b <==> r.errors == [] && (shouldContainMain ==> r.hasMain)
  {
    |r.errors| > 0 || (shouldContainMain && !r.hasMain)
  }
}
