/** The validator as the source has it: an object whose visit methods append
    to `errors` (`m_errors`), set `hasMain` (`m_has_main`) and set and clear
    `isStaticClassMember` around the visit of one class member. Each visit
    method is proved to leave the object in the state the function of the
    same name in module Rules computes. */
module Validation {
  import opened Ast
  import opened Diagnostics
  import opened Rules

  class Validator {
    const isJs: bool
    const shouldContainMain: bool
    var errors: seq<Diagnostic>
    var hasMain: bool
    var isStaticClassMember: bool

    /** The object's state as a value. */
    function St(): State
      reads this
    {
      State(errors, hasMain, isStaticClassMember)
    }

    /** Construction runs the whole walk over `ast`. */
    constructor (ast: Node, isJs: bool, shouldContainMain: bool)
      ensures this.isJs == isJs && this.shouldContainMain == shouldContainMain
      ensures St() == Walk(isJs, ast, Initial)
    {
      this.isJs := isJs;
      this.shouldContainMain := shouldContainMain;
      errors := [];
      hasMain := false;
      isStaticClassMember := false;
      new;
      Accept(ast);
    }

    /** The constructor's verdict: the unit is refused (and the source
        exits) when this holds. */
    function IsRefused(): (b: bool)
      reads this
      ensures !b <==> errors == [] && (shouldContainMain ==> hasMain)
    {
      Refused(St(), shouldContainMain)
    }

    method AddError(tok: Token, msg: Message)
      modifies this
      ensures errors == old(errors) + [Diagnostic(tok, msg)]
      ensures hasMain == old(hasMain) && isStaticClassMember == old(isStaticClassMember)
    {
      errors := errors + [Diagnostic(tok, msg)];
    }

    /** `accept`: dispatch on the node's kind. */
    method Accept(n: Node)
      modifies this
      ensures St() == Walk(isJs, n, old(St()))
      decreases n, 2
    {
      if n.Program? {
        VisitProgram(n);
      } else if n.Block? {
        VisitBlock(n);
      } else if n.ClassDef? {
        VisitClassDef(n);
      } else if n.Import? {
        // an import is not checked
      } else if n.FunctionDef? {
        VisitFunctionDef(n);
      } else if n.MethodDef? {
        VisitMethodDef(n);
      } else if n.ExternFuncDef? {
        VisitExternFuncDef(n);
      } else if n.VariableStmt? {
        VisitVariable(n);
      } else if n.ConstDecl? {
        VisitConst(n);
      } else if n.TypeDef? {
        VisitTypeDef(n);
      } else if n.If? {
        VisitIf(n);
      } else if n.Assert? {
        Accept(n.condition);
      } else if n.Static? {
        VisitStatic(n);
      } else if n.Inline? {
        VisitInline(n);
      } else if n.Virtual? {
        VisitVirtual(n);
      } else if n.Export? {
        VisitExport(n);
      } else if n.Private? {
        VisitPrivate(n);
      } else if n.Raise? {
        Accept(n.value);
      } else if n.While? {
        VisitWhile(n);
      } else if n.For? {
        VisitFor(n);
      } else if n.Match? {
        VisitMatch(n);
      } else if n.Scope? {
        Accept(n.body);
      } else if n.With? {
        VisitWith(n);
      } else if n.TryExcept? {
        VisitTryExcept(n);
      } else if n.Return? {
        Accept(n.value);
      } else if n.Decorator? {
        VisitDecorator(n);
      } else if n.AugAssign? {
        VisitAugAssign(n);
      } else if n.MultiAssign? {
        VisitMultiAssign(n);
      } else {
        AcceptExpression(n);
      }
    }

    method AcceptExpression(n: Node)
      modifies this
      ensures St() == WalkExpression(isJs, n, old(St()))
      decreases n, 1
    {
      if n.FormattedStr? {
        AcceptEach(n.items);
      } else if n.ListLit? {
        AcceptEach(n.items);
      } else if n.DictLit? {
        VisitDict(n);
      } else if n.Access? {
        VisitAccess(n);
      } else if n.BinaryOp? {
        VisitBinaryOp(n);
      } else if n.Prefix? {
        VisitPrefix(n);
      } else if n.Postfix? {
        Accept(n.left);
      } else if n.Call? {
        VisitCall(n);
      } else if n.GenericCall? {
        VisitGenericCall(n);
      } else if n.Dot? {
        VisitMember(n);
      } else if n.Arrow? {
        VisitMember(n);
      } else if n.TernaryIf? {
        VisitTernaryIf(n);
      } else if n.TernaryFor? {
        VisitTernaryFor(n);
      } else if n.Lambda? {
        VisitLambda(n);
      } else if n.Cast? {
        VisitCast(n);
      } else if n.UnionLit? {
        VisitUnionLit(n);
      } else if n.EnumLit? {
        VisitEnumLit(n);
      } else if n.ExternUnion? {
        VisitExternUnion(n);
      } else if n.ExternStruct? {
        VisitExternStruct(n);
      } else if n.ExprTuple? {
        AcceptEach(n.items);
      } else if n.InlineAsm? {
        VisitInlineAsm(n);
      } else if n.CompileTime? {
        VisitCompileTime(n);
      } else if n.DefaultArg? {
        VisitDefaultArg(n);
      } else if n.TypeExpr? {
        AcceptEach(n.genericTypes);
      } else if n.ListType? {
        VisitListType(n);
      } else if n.FunctionType? {
        VisitFunctionType(n);
      } else if n.PointerType? {
        VisitPointerType(n);
      } else if n.RefType? {
        VisitRefType(n);
      } else if n.TypeTuple? {
        AcceptEach(n.items);
      } else if n.SumType? {
        AcceptEach(n.items);
      }
    }

    /** `for (auto& x : xs) x->accept(*this)`. */
    method AcceptEach(ns: seq<Node>)
      modifies this
      ensures St() == WalkAll(isJs, ns, old(St()))
      decreases ns
    {
      var i := 0;
      while i < |ns|
        invariant 0 <= i <= |ns|
        invariant WalkAll(isJs, ns[i..], St()) == WalkAll(isJs, ns, old(St()))
      {
        assert ns[i..][1..] == ns[i + 1..];
        Accept(ns[i]);
        i := i + 1;
      }
    }

    method VisitProgram(n: Node)
      requires n.Program?
      modifies this
      ensures St() == TopLevel(isJs, n.statements, old(St()))
      decreases n, 0
    {
      var stmts := n.statements;
      var i := 0;
      while i < |stmts|
        invariant 0 <= i <= |stmts|
        invariant TopLevel(isJs, stmts[i..], St()) == TopLevel(isJs, stmts, old(St()))
      {
        assert stmts[i..][1..] == stmts[i + 1..];
        var stmt := stmts[i];
        var v := TopLevelViolation(stmt);
        if v.Some? {
          AddError(stmt.tok, v.value);
        } else {
          Accept(stmt);
        }
        i := i + 1;
      }
    }

    method VisitBlock(n: Node)
      requires n.Block?
      modifies this
      ensures St() == BlockFrom(isJs, n.statements, 0, old(St()))
      decreases n, 0
    {
      var stmts := n.statements;
      var i := 0;
      while i < |stmts|
        invariant 0 <= i <= |stmts|
        invariant BlockFrom(isJs, stmts, i, St()) == BlockFrom(isJs, stmts, 0, old(St()))
      {
        var stmt := stmts[i];
        if IsTerminator(stmt) && i < |stmts| - 1 {
          // it is not the last statement
          AddError(stmts[i + 1].tok, Unreachable(Keyword(stmt)));
        } else {
          var v := BlockViolation(stmt);
          if v.Some? {
            AddError(stmt.tok, v.value);
          } else if !stmt.Static? && !stmt.BinaryOp? {
            Accept(stmt);
          }
        }
        i := i + 1;
      }
    }

    method VisitClassDef(n: Node)
      requires n.ClassDef?
      modifies this
      ensures St() == WalkClassDef(isJs, n, old(St()))
      decreases n, 0
    {
      Accept(n.name);
      AcceptEach(n.parents);
      var other := n.other;
      ghost var s0 := St();
      var i := 0;
      while i < |other|
        invariant 0 <= i <= |other|
        invariant ClassOther(isJs, other[i..], St()) == ClassOther(isJs, other, s0)
      {
        assert other[i..][1..] == other[i + 1..];
        VisitClassOther(other[i]);
        i := i + 1;
      }
      AcceptEach(n.attributes);
      var methods := n.methods;
      ghost var s1 := St();
      i := 0;
      while i < |methods|
        invariant 0 <= i <= |methods|
        invariant ClassMethods(isJs, methods[i..], St()) == ClassMethods(isJs, methods, s1)
      {
        assert methods[i..][1..] == methods[i + 1..];
        VisitClassMember(methods[i]);
        i := i + 1;
      }
    }

    /** The body of the loop over a class's other statements. */
    method VisitClassOther(x: Node)
      modifies this
      ensures St() == ClassOtherStmt(isJs, x, old(St()))
      decreases x, 3
    {
      if x.Private? {
        AddError(x.tok, PrivateInClass);
      } else if x.ExternStruct? {
        AddError(x.tok, ExternStructInClass);
      } else if x.ExternUnion? {
        AddError(x.tok, ExternUnionInClass);
      } else {
        Accept(x);
      }
    }

    /** The body of the loop over a class's methods. */
    method VisitClassMember(m: Node)
      modifies this
      ensures St() == ClassMember(isJs, m, old(St()))
      decreases m, 3
    {
      var x := m;
      if x.Static? || x.Inline? {
        x := x.body;
      }
      if x.Inline? {
        // a "static inline" member
        x := x.body;
      }
      assert x == Unwrapped(m);
      if x.MethodDef? {
        AddError(x.tok, MethodDefInClass);
      } else if x.ExternFuncDef? {
        AddError(x.tok, ExternFuncInClass);
      } else {
        if !m.Static? {
          isStaticClassMember := true;
        }
        Accept(x);
        isStaticClassMember := false;
      }
    }

    method VisitFunctionDef(n: Node)
      requires n.FunctionDef?
      modifies this
      ensures St() == WalkFunctionDef(isJs, n, old(St()))
      decreases n, 0
    {
      Accept(n.returnType);
      if IsMainName(n.name) {
        hasMain := true;
      }
      Accept(n.name);
      Accept(n.body);
      var params := n.params;
      if isStaticClassMember {
        if |params| == 0 {
          AddError(n.name.tok, ReceiverMissing);
        } else {
          if !params[0].pType.NoLit? {
            AddError(params[0].pType.tok, ReceiverTyped);
          }
          if !params[0].pDefault.NoLit? {
            AddError(params[0].pDefault.tok, ReceiverDefault);
          }
        }
        isStaticClassMember := false;
      }
      ValidateParameters(params);
    }

    method VisitMethodDef(n: Node)
      requires n.MethodDef?
      modifies this
      ensures St() == WalkMethodDef(isJs, n, old(St()))
      decreases n, 0
    {
      Accept(n.returnType);
      Accept(n.name);
      Accept(n.body);
      Accept(n.receiver.pType);
      Accept(n.receiver.pDefault);
      Accept(n.receiver.pName);
      ValidateParameters(n.params);
    }

    method VisitIf(n: Node)
      requires n.If?
      modifies this
      ensures St() == WalkIf(isJs, n, old(St()))
      decreases n, 0
    {
      Accept(n.condition);
      Accept(n.ifBody);
      Accept(n.elseBody);
      var elifs := n.elifs;
      ghost var s0 := St();
      var i := 0;
      while i < |elifs|
        invariant 0 <= i <= |elifs|
        invariant WalkPairs(isJs, elifs[i..], St()) == WalkPairs(isJs, elifs, s0)
      {
        assert elifs[i..][1..] == elifs[i + 1..];
        Accept(elifs[i].first);
        Accept(elifs[i].second);
        i := i + 1;
      }
    }

    method VisitVirtual(n: Node)
      requires n.Virtual?
      modifies this
      ensures St() == WalkVirtual(isJs, n, old(St()))
      decreases n, 0
    {
      if isJs {
        AddError(n.tok, Dialect(VirtualStmt));
      }
      if n.body.MethodDef? {
        AddError(n.body.tok, MethodDefInClass);
      } else if n.body.ExternFuncDef? {
        AddError(n.body.tok, VirtualExternFunc);
      } else {
        Accept(n.body);
      }
    }

    method VisitMatch(n: Node)
      requires n.Match?
      modifies this
      ensures St() == WalkMatch(isJs, n, old(St()))
      decreases n, 0
    {
      AcceptEach(n.items);
      Accept(n.defaultBody);
      var cases := n.cases;
      ghost var s0 := St();
      var i := 0;
      while i < |cases|
        invariant 0 <= i <= |cases|
        invariant WalkCases(isJs, cases[i..], St()) == WalkCases(isJs, cases, s0)
      {
        assert cases[i..][1..] == cases[i + 1..];
        VisitCase(cases[i]);
        i := i + 1;
      }
    }

    method VisitCase(c: MatchCase)
      modifies this
      ensures St() == WalkCase(isJs, c, old(St()))
      decreases c
    {
      AcceptEach(c.patterns);
      Accept(c.body);
    }

    method VisitTryExcept(n: Node)
      requires n.TryExcept?
      modifies this
      ensures St() == WalkTryExcept(isJs, n, old(St()))
      decreases n, 0
    {
      Accept(n.body);
      var handlers := n.handlers;
      ghost var s0 := St();
      var i := 0;
      while i < |handlers|
        invariant 0 <= i <= |handlers|
        invariant WalkHandlers(isJs, handlers[i..], St()) == WalkHandlers(isJs, handlers, s0)
      {
        assert handlers[i..][1..] == handlers[i + 1..];
        VisitHandler(handlers[i]);
        i := i + 1;
      }
    }

    method VisitHandler(h: Handler)
      modifies this
      ensures St() == WalkHandler(isJs, h, old(St()))
      decreases h
    {
      AcceptEach(h.types);
      Accept(h.binding);
      Accept(h.body);
    }

    method VisitMultiAssign(n: Node)
      requires n.MultiAssign?
      modifies this
      ensures St() == WalkMultiAssign(isJs, n, old(St()))
      decreases n, 0
    {
      AcceptEach(n.values);
      AcceptEach(n.names);
      if |n.values| != 1 && |n.values| != |n.names| {
        if |n.values| > |n.names| {
          AddError(n.tok, TooManyValues);
        } else {
          AddError(n.tok, TooFewValues);
        }
      }
    }

    method VisitDict(n: Node)
      requires n.DictLit?
      modifies this
      ensures St() == WalkPairs(isJs, n.entries, old(St()))
      decreases n, 0
    {
      var entries := n.entries;
      var i := 0;
      while i < |entries|
        invariant 0 <= i <= |entries|
        invariant WalkPairs(isJs, entries[i..], St()) == WalkPairs(isJs, entries, old(St()))
      {
        assert entries[i..][1..] == entries[i + 1..];
        Accept(entries[i].first);
        Accept(entries[i].second);
        i := i + 1;
      }
    }

    /** `.` and `->`. */
    method VisitMember(n: Node)
      requires n.Dot? || n.Arrow?
      modifies this
      ensures St() == WalkMember(isJs, n, old(St()))
      decreases n, 0
    {
      Accept(n.owner);
      if IsMemberAccess(n.referenced) {
        Accept(n.referenced);
      } else {
        AddError(n.referenced.tok, UnexpectedToken);
      }
    }

    method VisitLambda(n: Node)
      requires n.Lambda?
      modifies this
      ensures St() == WalkLambda(isJs, n, old(St()))
      decreases n, 0
    {
      Accept(n.body);
      var params := n.params;
      ghost var s0 := St();
      var i := 0;
      while i < |params|
        invariant 0 <= i <= |params|
        invariant LambdaChecks(params[i..], St()) == LambdaChecks(params, s0)
      {
        assert params[i..][1..] == params[i + 1..];
        var x := params[i];
        if !x.pDefault.NoLit? {
          AddError(x.pName.tok, LambdaDefault);
        }
        if x.kind != Normal {
          AddError(x.pName.tok, LambdaVariadic);
        }
        if x.pType.NoLit? {
          AddError(x.pName.tok, LambdaUntyped);
        }
        i := i + 1;
      }
      ValidateParameters(params);
    }

    method VisitUnionLit(n: Node)
      requires n.UnionLit?
      modifies this
      ensures St() == WalkUnionLit(isJs, n, old(St()))
      decreases n, 0
    {
      if isJs {
        AddError(n.tok, Dialect(UnionLiteral));
      } else {
        var entries := n.entries;
        ghost var s0 := St();
        var i := 0;
        while i < |entries|
          invariant 0 <= i <= |entries|
          invariant WalkPairs(isJs, entries[i..], St()) == WalkPairs(isJs, entries, s0)
        {
          assert entries[i..][1..] == entries[i + 1..];
          Accept(entries[i].first);
          Accept(entries[i].second);
          i := i + 1;
        }
        Accept(n.name);
      }
    }

    method VisitEnumLit(n: Node)
      requires n.EnumLit?
      modifies this
      ensures St() == WalkEnumLit(isJs, n, old(St()))
      decreases n, 0
    {
      var entries := n.entries;
      ghost var s0 := St();
      var i := 0;
      while i < |entries|
        invariant 0 <= i <= |entries|
        invariant WalkPairs(isJs, entries[i..], St()) == WalkPairs(isJs, entries, s0)
      {
        assert entries[i..][1..] == entries[i + 1..];
        Accept(entries[i].first);
        Accept(entries[i].second);
        i := i + 1;
      }
      Accept(n.name);
    }

    method VisitExternUnion(n: Node)
      requires n.ExternUnion?
      modifies this
      ensures St() == WalkExternUnion(isJs, n, old(St()))
      decreases n, 0
    {
      if isJs {
        AddError(n.tok, Dialect(UnionType));
      } else {
        Accept(n.name);
        var entries := n.entries;
        ghost var s0 := St();
        var i := 0;
        while i < |entries|
          invariant 0 <= i <= |entries|
          invariant WalkPairs(isJs, entries[i..], St()) == WalkPairs(isJs, entries, s0)
        {
          assert entries[i..][1..] == entries[i + 1..];
          Accept(entries[i].first);
          Accept(entries[i].second);
          i := i + 1;
        }
      }
    }

    method VisitExternStruct(n: Node)
      requires n.ExternStruct?
      modifies this
      ensures St() == WalkExternStruct(isJs, n, old(St()))
      decreases n, 0
    {
      Accept(n.name);
      var entries := n.entries;
      ghost var s0 := St();
      var i := 0;
      while i < |entries|
        invariant 0 <= i <= |entries|
        invariant WalkPairs(isJs, entries[i..], St()) == WalkPairs(isJs, entries, s0)
      {
        assert entries[i..][1..] == entries[i + 1..];
        Accept(entries[i].first);
        Accept(entries[i].second);
        i := i + 1;
      }
    }

    method VisitCompileTime(n: Node)
      requires n.CompileTime?
      modifies this
      ensures St() == WalkCompileTime(isJs, n, old(St()))
      decreases n, 0
    {
      var exp := n.expression;
      var tok := exp.tok;
      if exp.Private? {
        exp := exp.definition;
      }
      var reason := CompileTimeViolation(exp);
      if reason.Some? {
        AddError(tok, NotAtCompileTime(reason.value));
      } else {
        Accept(exp);
      }
    }

    method VisitExternFuncDef(n: Node)
      requires n.ExternFuncDef?
      modifies this
      ensures St() == WalkExternFuncDef(isJs, n, old(St()))
      decreases n, 0
    {
      Accept(n.returnType);
      Accept(n.name);
      ValidateParameters(n.params);
    }

    method VisitVariable(n: Node)
      requires n.VariableStmt?
      modifies this
      ensures St() == WalkVariable(isJs, n, old(St()))
      decreases n, 0
    {
      Accept(n.name);
      Accept(n.value);
      Accept(n.varType);
    }

    method VisitConst(n: Node)
      requires n.ConstDecl?
      modifies this
      ensures St() == WalkConst(isJs, n, old(St()))
      decreases n, 0
    {
      Accept(n.name);
      Accept(n.value);
      Accept(n.constType);
    }

    method VisitTypeDef(n: Node)
      requires n.TypeDef?
      modifies this
      ensures St() == WalkTypeDef(isJs, n, old(St()))
      decreases n, 0
    {
      Accept(n.name);
      Accept(n.baseType);
    }

    method VisitStatic(n: Node)
      requires n.Static?
      modifies this
      ensures St() == WalkStatic(isJs, n, old(St()))
      decreases n, 0
    {
      if isJs {
        AddError(n.tok, Dialect(StaticStmt));
      }
      Accept(n.body);
    }

    method VisitInline(n: Node)
      requires n.Inline?
      modifies this
      ensures St() == WalkInline(isJs, n, old(St()))
      decreases n, 0
    {
      if isJs {
        AddError(n.tok, Dialect(InlineStmt));
      }
      Accept(n.body);
    }

    method VisitExport(n: Node)
      requires n.Export?
      modifies this
      ensures St() == WalkExport(isJs, n, old(St()))
      decreases n, 0
    {
      if n.body.MethodDef? {
        AddError(n.body.tok, ExportMethodDef);
      } else if n.body.ExternFuncDef? {
        AddError(n.body.tok, ExportExternFunc);
      } else {
        Accept(n.body);
      }
    }

    method VisitPrivate(n: Node)
      requires n.Private?
      modifies this
      ensures St() == WalkPrivate(isJs, n, old(St()))
      decreases n, 0
    {
      var d := n.definition;
      if d.ExternStruct? || d.ExternUnion? || d.ExternFuncDef? {
        AddError(d.tok, PrivateExternRedundant);
      } else {
        Accept(d);
      }
    }

    method VisitWhile(n: Node)
      requires n.While?
      modifies this
      ensures St() == WalkWhile(isJs, n, old(St()))
      decreases n, 0
    {
      Accept(n.condition);
      Accept(n.body);
    }

    method VisitFor(n: Node)
      requires n.For?
      modifies this
      ensures St() == WalkFor(isJs, n, old(St()))
      decreases n, 0
    {
      Accept(n.sequence);
      Accept(n.body);
      AcceptEach(n.variables);
    }

    method VisitWith(n: Node)
      requires n.With?
      modifies this
      ensures St() == WalkWith(isJs, n, old(St()))
      decreases n, 0
    {
      Accept(n.body);
      AcceptEach(n.values);
      AcceptEach(n.variables);
    }

    method VisitDecorator(n: Node)
      requires n.Decorator?
      modifies this
      ensures St() == WalkDecorator(isJs, n, old(St()))
      decreases n, 0
    {
      Accept(n.body);
      AcceptEach(n.items);
    }

    method VisitAugAssign(n: Node)
      requires n.AugAssign?
      modifies this
      ensures St() == WalkAugAssign(isJs, n, old(St()))
      decreases n, 0
    {
      Accept(n.name);
      Accept(n.value);
    }

    method VisitAccess(n: Node)
      requires n.Access?
      modifies this
      ensures St() == WalkAccess(isJs, n, old(St()))
      decreases n, 0
    {
      Accept(n.container);
      AcceptEach(n.keys);
    }

    method VisitBinaryOp(n: Node)
      requires n.BinaryOp?
      modifies this
      ensures St() == WalkBinaryOp(isJs, n, old(St()))
      decreases n, 0
    {
      Accept(n.left);
      Accept(n.right);
    }

    method VisitPrefix(n: Node)
      requires n.Prefix?
      modifies this
      ensures St() == WalkPrefix(isJs, n, old(St()))
      decreases n, 0
    {
      Accept(n.right);
      if isJs && (n.prefix.tkType == TkAmpersand || n.prefix.tkType == TkMultiply) {
        AddError(n.prefix, Dialect(PointerOp));
      }
    }

    method VisitCall(n: Node)
      requires n.Call?
      modifies this
      ensures St() == WalkCall(isJs, n, old(St()))
      decreases n, 0
    {
      Accept(n.callee);
      AcceptEach(n.items);
    }

    method VisitGenericCall(n: Node)
      requires n.GenericCall?
      modifies this
      ensures St() == WalkGenericCall(isJs, n, old(St()))
      decreases n, 0
    {
      Accept(n.callee);
      AcceptEach(n.genericTypes);
    }

    method VisitTernaryIf(n: Node)
      requires n.TernaryIf?
      modifies this
      ensures St() == WalkTernaryIf(isJs, n, old(St()))
      decreases n, 0
    {
      Accept(n.ifValue);
      Accept(n.ifCondition);
      Accept(n.elseValue);
    }

    method VisitTernaryFor(n: Node)
      requires n.TernaryFor?
      modifies this
      ensures St() == WalkTernaryFor(isJs, n, old(St()))
      decreases n, 0
    {
      Accept(n.forValue);
      Accept(n.forIterate);
      AcceptEach(n.variables);
    }

    method VisitCast(n: Node)
      requires n.Cast?
      modifies this
      ensures St() == WalkCast(isJs, n, old(St()))
      decreases n, 0
    {
      Accept(n.castType);
      Accept(n.value);
    }

    method VisitInlineAsm(n: Node)
      requires n.InlineAsm?
      modifies this
      ensures St() == WalkInlineAsm(isJs, n, old(St()))
      decreases n, 0
    {
      if isJs {
        AddError(n.tok, Dialect(InlineAssembly));
      } else {
        Accept(n.output);
        AcceptEach(n.inputs);
      }
    }

    method VisitDefaultArg(n: Node)
      requires n.DefaultArg?
      modifies this
      ensures St() == WalkDefaultArg(isJs, n, old(St()))
      decreases n, 0
    {
      Accept(n.value);
      Accept(n.name);
    }

    method VisitListType(n: Node)
      requires n.ListType?
      modifies this
      ensures St() == WalkListType(isJs, n, old(St()))
      decreases n, 0
    {
      Accept(n.elemType);
      Accept(n.size);
    }

    method VisitFunctionType(n: Node)
      requires n.FunctionType?
      modifies this
      ensures St() == WalkFunctionType(isJs, n, old(St()))
      decreases n, 0
    {
      Accept(n.returnTypes);
      ValidateParameterNodes(n.argTypes);
    }

    method VisitPointerType(n: Node)
      requires n.PointerType?
      modifies this
      ensures St() == WalkPointerType(isJs, n, old(St()))
      decreases n, 0
    {
      if isJs {
        AddError(n.tok, Dialect(PointerTypeExpr));
      } else {
        Accept(n.baseType);
      }
    }

    method VisitRefType(n: Node)
      requires n.RefType?
      modifies this
      ensures St() == WalkRefType(isJs, n, old(St()))
      decreases n, 0
    {
      if isJs {
        AddError(n.tok, Dialect(ReferenceType));
      } else {
        Accept(n.baseType);
      }
    }

    method AcceptDefaultAndName(p: Param)
      modifies this
      ensures St() == WalkDefaultAndName(isJs, p, old(St()))
      decreases p
    {
      Accept(p.pDefault);
      Accept(p.pName);
    }

    method AcceptParamType(p: Param)
      modifies this
      ensures St() == WalkParamType(isJs, p, old(St()))
      decreases p
    {
      Accept(p.pType);
    }

    /** `validate_parameters(std::vector<parameter>)`. */
    method ValidateParameters(ps: seq<Param>)
      modifies this
      ensures St() == Params(isJs, ps, 0, false, old(St()))
      decreases ps
    {
      var hasVargs := false;
      var i := 0;
      while i < |ps|
        invariant 0 <= i <= |ps|
        invariant Params(isJs, ps, i, hasVargs, St()) == Params(isJs, ps, 0, false, old(St()))
      {
        var x := ps[i];
        AcceptDefaultAndName(x);
        ReportShape(x.pType.tok, x.pType, if i < |ps| - 1 then Some(ps[i + 1].pType) else None, hasVargs);
        hasVargs := hasVargs || x.pType.VarArgType?;
        AcceptParamType(x);
        i := i + 1;
      }
    }

    /** The shape rule at one parameter, reported at `tok`: `t` is the
        parameter's type, `next` the next parameter's type if there is one. */
    method ReportShape(tok: Token, t: Node, next: Option<Node>, hasVargs: bool)
      modifies this
      ensures St() == ReportIf(old(St()), tok, ShapeViolation(t, next, hasVargs))
    {
      if t.VarArgType? {
        if next.Some? {
          if !next.value.VarKwargType? {
            AddError(tok, VarArgFollower);
          }
        } else if hasVargs {
          AddError(tok, MoreThanOneVarArg);
        }
      } else if t.VarKwargType? {
        if next.Some? {
          AddError(tok, VarKwargNotLast);
        }
      } else if t.EllipsesType? {
        if next.Some? {
          AddError(tok, EllipsisNotLast);
        }
      }
    }

    /** `validate_parameters(std::vector<AstNodePtr>)`. */
    method ValidateParameterNodes(ns: seq<Node>)
      modifies this
      ensures St() == ParamNodes(isJs, ns, 0, false, old(St()))
      decreases ns
    {
      var hasVargs := false;
      var i := 0;
      while i < |ns|
        invariant 0 <= i <= |ns|
        invariant ParamNodes(isJs, ns, i, hasVargs, St()) == ParamNodes(isJs, ns, 0, false, old(St()))
      {
        var x := ns[i];
        ReportNodeShape(ns, i, hasVargs);
        hasVargs := hasVargs || x.VarArgType?;
        Accept(x);
        i := i + 1;
      }
    }

    /** The shape rule at node `i`, reported at the next node, except "more
        than one '*'", which is reported at node `i` itself. */
    method ReportNodeShape(ns: seq<Node>, i: nat, hasVargs: bool)
      requires i < |ns|
      modifies this
      ensures var v := ShapeViolation(ns[i], NodeAfter(ns, i), hasVargs);
              St() == if v.Some? then Report(old(St()), ShapeToken(ns, i, v.value), v.value) else old(St())
    {
      var x := ns[i];
      if x.VarArgType? {
        if i < |ns| - 1 {
          if !ns[i + 1].VarKwargType? {
            AddError(ns[i + 1].tok, VarArgFollower);
          }
        } else if hasVargs {
          AddError(x.tok, MoreThanOneVarArg);
        }
      } else if x.VarKwargType? {
        if i < |ns| - 1 {
          AddError(ns[i + 1].tok, VarKwargNotLast);
        }
      } else if x.EllipsesType? {
        if i < |ns| - 1 {
          AddError(ns[i + 1].tok, EllipsisNotLast);
        }
      }
    }
  }
}
