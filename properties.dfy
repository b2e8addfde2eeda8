/** Properties of the validator's rules, stated over the walk in module
    Rules (which the methods of `Validation.Validator` are proved to follow).

    Several lemmas speak of trees whose other parts are leaves, so that the
    diagnostics in question are the only ones produced. */
module Properties {
  import opened Ast
  import opened Diagnostics
  import opened Rules
  import opened Seqs

  // ---------------------------------------------------------------------
  // Leaves

  /** Nodes the walk does nothing for. */
  predicate Leaf(n: Node) {
    n.Identifier? || n.IntegerLit? || n.NoLit? || n.VarArgType? || n.VarKwargType? || n.EllipsesType?
  }

  predicate AllLeaves(ns: seq<Node>) {
    forall i :: 0 <= i < |ns| ==> Leaf(ns[i])
  }

  predicate LeafParam(p: Param) {
    Leaf(p.pType) && Leaf(p.pName) && Leaf(p.pDefault)
  }

  predicate LeafParams(ps: seq<Param>) {
    forall k :: 0 <= k < |ps| ==> LeafParam(ps[k])
  }

  /** A node the walk leaves untouched, in either dialect and from any
      state. */
  ghost predicate Silent(n: Node) {
    forall js: bool, s: State :: Walk(js, n, s) == s
  }

  ghost predicate AllSilent(ns: seq<Node>) {
    forall k :: 0 <= k < |ns| ==> Silent(ns[k])
  }

  /** A parameter whose default, name and type the walk leaves untouched,
      in either dialect and from any state. */
  ghost predicate SilentParam(p: Param) {
    forall js: bool, s: State :: WalkDefaultAndName(js, p, s) == s && WalkParamType(js, p, s) == s
  }

  ghost predicate SilentParams(ps: seq<Param>) {
    forall k :: 0 <= k < |ps| ==> SilentParam(ps[k])
  }

  lemma ValueWalk(js: bool, n: Node, s: State)
    requires n.Identifier? || n.IntegerLit? || n.NoLit?
    ensures Walk(js, n, s) == s
  {
  }

  lemma MarkerWalk(js: bool, n: Node, s: State)
    requires n.VarArgType? || n.VarKwargType? || n.EllipsesType?
    ensures Walk(js, n, s) == s
  {
  }

  lemma LeafWalk(js: bool, n: Node, s: State)
    requires Leaf(n)
    ensures Walk(js, n, s) == s
  {
    if n.Identifier? || n.IntegerLit? || n.NoLit? {
      ValueWalk(js, n, s);
    } else {
      MarkerWalk(js, n, s);
    }
  }

  /** Leaves are silent. */
  lemma LeavesSilent(ns: seq<Node>)
    requires AllLeaves(ns)
    ensures AllSilent(ns)
  {
    forall k, js: bool, s: State | 0 <= k < |ns|
      ensures Walk(js, ns[k], s) == s
    {
      LeafWalk(js, ns[k], s);
    }
  }

  /** A parameter whose parts are leaves is silent. */
  lemma LeafParamsSilent(ps: seq<Param>)
    requires LeafParams(ps)
    ensures SilentParams(ps)
  {
    forall k, js: bool, s: State | 0 <= k < |ps|
      ensures WalkDefaultAndName(js, ps[k], s) == s && WalkParamType(js, ps[k], s) == s
    {
      assert LeafParam(ps[k]);
      LeafWalk(js, ps[k].pDefault, s);
      LeafWalk(js, ps[k].pName, s);
      LeafWalk(js, ps[k].pType, s);
    }
  }

  lemma {:induction false} WalkAllLeaves(js: bool, ns: seq<Node>, s: State)
    requires AllLeaves(ns)
    ensures WalkAll(js, ns, s) == s
    decreases ns
  {
    if ns != [] {
      LeafWalk(js, ns[0], s);
      assert AllLeaves(ns[1..]) by {
        assert forall i :: 0 <= i < |ns| - 1 ==> ns[1..][i] == ns[i + 1];
      }
      WalkAllLeaves(js, ns[1..], s);
    }
  }

  // ---------------------------------------------------------------------
  // Top-level placement

  /** The diagnostics of statements all refused at the top level: one per
      statement, in order, at the statement's token. */
  function Refusals(stmts: seq<Node>): (ds: seq<Diagnostic>)
    requires forall i :: 0 <= i < |stmts| ==> TopLevelViolation(stmts[i]).Some?
  {
    if stmts == [] then []
    else [Diagnostic(stmts[0].tok, TopLevelViolation(stmts[0]).value)] + Refusals(stmts[1..])
  }

  /** Statement `i` owns diagnostic `i`. */
  lemma {:induction false} RefusalsAt(stmts: seq<Node>, i: nat)
    requires forall i :: 0 <= i < |stmts| ==> TopLevelViolation(stmts[i]).Some?
    requires i < |stmts|
    ensures |Refusals(stmts)| == |stmts|
    ensures Refusals(stmts)[i] == Diagnostic(stmts[i].tok, TopLevelViolation(stmts[i]).value)
    decreases stmts
  {
    var rest := stmts[1..];
    if |rest| > 0 {
      RefusalsAt(rest, if i == 0 then 0 else i - 1);
    } else {
      assert Refusals(rest) == [];
    }
  }

  /** A program made only of such statements produces exactly their
      refusals and visits none of them. */
  lemma {:induction false} TopLevelRefusals(js: bool, stmts: seq<Node>, s: State)
    requires forall i :: 0 <= i < |stmts| ==> TopLevelViolation(stmts[i]).Some?
    ensures TopLevel(js, stmts, s) == s.(errors := s.errors + Refusals(stmts))
    decreases stmts
  {
    if stmts != [] {
      var d := Diagnostic(stmts[0].tok, TopLevelViolation(stmts[0]).value);
      var s1 := Report(s, stmts[0].tok, TopLevelViolation(stmts[0]).value);
      assert TopLevelStmt(js, stmts[0], s) == s1;
      TopLevelRefusals(js, stmts[1..], s1);
      AppendAssoc(s.errors, [d], Refusals(stmts[1..]));
    }
  }

  /** A statement not refused at the top level is visited, and a refused
      one yields exactly its one diagnostic; the refused kinds are the
      control-flow statements, bare expressions, calls and augmented
      assignments. */
  lemma TopLevelStatement(js: bool, st: Node, s: State)
    ensures TopLevelViolation(st).Some? <==>
            IsControlFlow(st) || st.Call? || st.AugAssign? || st.GenericCall? ||
            st.FormattedStr? || st.Lambda? || st.Dot? || st.Arrow? || st.Access? ||
            st.Prefix? || st.Cast? || st.TernaryIf? || st.DictLit? || st.ListLit? ||
            st.Identifier? || st.NoneLit? || st.BoolLit? || st.BinaryOp? ||
            st.DecimalLit? || st.IntegerLit?
    ensures IsControlFlow(st) ==> TopLevelStmt(js, st, s) == Report(s, st.tok, OutsideFunction(Keyword(st)))
    ensures TopLevelViolation(st).None? ==> TopLevelStmt(js, st, s) == Walk(js, st, s)
  {
  }

  // ---------------------------------------------------------------------
  // Blocks

  /** A terminator that is not last: its one diagnostic carries the next
      statement's token and the terminator is not visited; a terminator that
      is last is visited like any statement. */
  lemma TerminatorStep(js: bool, stmts: seq<Node>, i: nat, s: State)
    requires i < |stmts| && IsTerminator(stmts[i])
    ensures Keyword(stmts[i]) != ""
    ensures i + 1 < |stmts| ==>
              BlockStep(js, stmts, i, s) == Report(s, stmts[i + 1].tok, Unreachable(Keyword(stmts[i])))
    ensures i + 1 == |stmts| ==> BlockStep(js, stmts, i, s) == Walk(js, stmts[i], s)
  {
  }

  /** The unreachable-code diagnostic stays in the block's diagnostics,
      whatever the other statements do. */
  lemma {:induction false} UnreachableReported(js: bool, stmts: seq<Node>, j: nat, i: nat, s: State)
    requires j <= i && i + 1 < |stmts| && IsTerminator(stmts[i])
    ensures Diagnostic(stmts[i + 1].tok, Unreachable(Keyword(stmts[i]))) in BlockFrom(js, stmts, j, s).errors
    decreases i - j
  {
    var d := Diagnostic(stmts[i + 1].tok, Unreachable(Keyword(stmts[i])));
    var s1 := BlockStep(js, stmts, j, s);
    assert BlockFrom(js, stmts, j, s) == BlockFrom(js, stmts, j + 1, s1);
    if j == i {
      TerminatorStep(js, stmts, i, s);
      assert s1.errors[|s.errors|] == d;
      var r := BlockFrom(js, stmts, j + 1, s1);
      assert s1.errors <= r.errors;
      assert r.errors[|s.errors|] == d;
    } else {
      UnreachableReported(js, stmts, j + 1, i, s1);
    }
  }

  /** A binary operation in a block is refused as unused unless it is a
      pipeline, which is not visited at all. */
  lemma BlockBinaryOp(js: bool, stmts: seq<Node>, i: nat, s: State)
    requires i < |stmts| && stmts[i].BinaryOp?
    ensures var st := stmts[i];
            BlockStep(js, stmts, i, s) ==
            (if st.tok.tkType == TkPipeline then s else Report(s, st.tok, ResultUnused))
  {
  }

  /** A `static` statement in a block is refused when it wraps `inline`, and
      is not visited either way. */
  lemma BlockStatic(js: bool, stmts: seq<Node>, i: nat, s: State)
    requires i < |stmts| && stmts[i].Static?
    ensures var st := stmts[i];
            BlockStep(js, stmts, i, s) == (if st.body.Inline? then Report(s, st.tok, NestedInline) else s)
  {
  }

  /** A definition that belongs at the global scope is refused in a block at
      its own token, with the message for its kind, and is not visited. */
  lemma BlockMisplaced(js: bool, stmts: seq<Node>, i: nat, s: State)
    requires i < |stmts|
    requires var st := stmts[i];
             st.Import? || st.Inline? || st.ExternFuncDef? || st.ExternStruct? || st.ExternUnion? ||
             st.Export? || st.Extern? || st.Private?
    ensures var st := stmts[i];
            BlockStep(js, stmts, i, s) ==
            Report(s, st.tok,
                   if st.Import? then ImportInFunction
                   else if st.Inline? then NestedInline
                   else if st.ExternFuncDef? then ExternFuncInFunction
                   else if st.ExternStruct? then ExternStructInFunction
                   else if st.ExternUnion? then ExternUnionInFunction
                   else if st.Export? then NestedExport
                   else if st.Extern? then ExternInFunction
                   else PrivateInFunction)
  {
    var st := stmts[i];
    assert !IsTerminator(st);
    var m := if st.Import? then ImportInFunction
             else if st.Inline? then NestedInline
             else if st.ExternFuncDef? then ExternFuncInFunction
             else if st.ExternStruct? then ExternStructInFunction
             else if st.ExternUnion? then ExternUnionInFunction
             else if st.Export? then NestedExport
             else if st.Extern? then ExternInFunction
             else PrivateInFunction;
    assert BlockViolation(st) == Some(m);
  }

  // ---------------------------------------------------------------------
  // Parameter lists

  /** The type nodes of a parameter list. */
  function TypesOf(ps: seq<Param>): (ts: seq<Node>)
    ensures |ts| == |ps| && forall i {:trigger ts[i]} :: 0 <= i < |ps| ==> ts[i] == ps[i].pType
  {
    seq(|ps|, i requires 0 <= i < |ps| => ps[i].pType)
  }

  /** A `*` comes before position `i` of the type list `ts`. */
  predicate VarArgBefore(ts: seq<Node>, i: nat)
    requires i <= |ts|
  {
    i > 0 && (ts[i - 1].VarArgType? || VarArgBefore(ts, i - 1))
  }

  /** The shape rule at position `i` of the type list `ts`, stated directly:
      `*` must be followed by `**` unless it is last, and must not be last
      after an earlier `*`; `**` and `...` must be last. Only "more than one
      '*'" can hold of the last position. */
  function ExpectedShape(ts: seq<Node>, i: nat): (e: Option<Message>)
    requires i < |ts|
    ensures e.Some? && e.value != MoreThanOneVarArg ==> i + 1 < |ts|
  {
    var t := ts[i];
    var last := i + 1 == |ts|;
    if t.VarArgType? && !last && !ts[i + 1].VarKwargType? then Some(VarArgFollower)
    else if t.VarArgType? && last && VarArgBefore(ts, i) then Some(MoreThanOneVarArg)
    else if t.VarKwargType? && !last then Some(VarKwargNotLast)
    else if t.EllipsesType? && !last then Some(EllipsisNotLast)
    else None
  }

  /** The shape diagnostic of parameter `i`, if any, at its own type token. */
  function ShapeAt(ps: seq<Param>, i: nat): seq<Diagnostic>
    requires i < |ps|
  {
    var e := ExpectedShape(TypesOf(ps), i);
    if e.Some? then [Diagnostic(ps[i].pType.tok, e.value)] else []
  }

  /** The shape diagnostics of parameters `i..`, in order. */
  function ShapeDiagnostics(ps: seq<Param>, i: nat): seq<Diagnostic>
    requires i <= |ps|
    decreases |ps| - i
  {
    if i == |ps| then [] else ShapeAt(ps, i) + ShapeDiagnostics(ps, i + 1)
  }

  /** The shape diagnostic of type node `i`, if any: at the next node,
      except "more than one '*'", which is at the node itself. */
  function NodeShapeAt(ns: seq<Node>, i: nat): seq<Diagnostic>
    requires i < |ns|
  {
    var e := ExpectedShape(ns, i);
    if e.None? then []
    else if e.value == MoreThanOneVarArg then [Diagnostic(ns[i].tok, e.value)]
    else [Diagnostic(ns[i + 1].tok, e.value)]
  }

  /** The shape diagnostics of type nodes `i..`, in order. */
  function NodeShapeDiagnostics(ns: seq<Node>, i: nat): seq<Diagnostic>
    requires i <= |ns|
    decreases |ns| - i
  {
    if i == |ns| then [] else NodeShapeAt(ns, i) + NodeShapeDiagnostics(ns, i + 1)
  }

  /** One parameter the walk leaves untouched: only its shape diagnostic. */
  lemma ParamStepShape(js: bool, ps: seq<Param>, i: nat, hasVargs: bool, s: State)
    requires i < |ps| && SilentParams(ps)
    requires hasVargs == VarArgBefore(TypesOf(ps), i)
    ensures Params(js, ps, i, hasVargs, s) ==
            Params(js, ps, i + 1, VarArgBefore(TypesOf(ps), i + 1), s.(errors := s.errors + ShapeAt(ps, i)))
  {
    var p := ps[i];
    assert SilentParam(p);
    assert WalkDefaultAndName(js, p, s) == s;
    var s2 := s.(errors := s.errors + ShapeAt(ps, i));
    if ShapeAt(ps, i) == [] {
      assert s2 == s;
    }
    assert ReportIf(s, p.pType.tok, ShapeViolation(p.pType, ParamTypeAfter(ps, i), hasVargs)) == s2;
    assert WalkParamType(js, p, s2) == s2;
    assert ParamStep(js, ps, i, hasVargs, s) == s2;
  }

  /** Over parameters the walk leaves untouched (those whose parts are
      leaves, by `LeafParamsSilent`), `validate_parameters` reports exactly
      the shape diagnostics, in order, and nothing else. */
  lemma {:induction false} ParamsShape(js: bool, ps: seq<Param>, i: nat, hasVargs: bool, s: State)
    requires i <= |ps| && SilentParams(ps)
    requires hasVargs == VarArgBefore(TypesOf(ps), i)
    ensures Params(js, ps, i, hasVargs, s) == s.(errors := s.errors + ShapeDiagnostics(ps, i))
    decreases |ps| - i
  {
    if i == |ps| {
      assert s.errors + ShapeDiagnostics(ps, i) == s.errors;
    } else {
      var s1 := s.(errors := s.errors + ShapeAt(ps, i));
      ParamStepShape(js, ps, i, hasVargs, s);
      ParamsShape(js, ps, i + 1, VarArgBefore(TypesOf(ps), i + 1), s1);
      AppendAssoc(s.errors, ShapeAt(ps, i), ShapeDiagnostics(ps, i + 1));
      assert s1.errors + ShapeDiagnostics(ps, i + 1) == s.errors + ShapeDiagnostics(ps, i);
    }
  }

  function P(t: Node, tok: Token): Param {
    Param(t, Identifier(tok, "x"), NoLit(tok), Normal)
  }

  /** `(*, **, *)`: the `**` is not last, and the second `*` is last after
      an earlier one. */
  lemma ShapeExampleStarKwargStar(t0: Token, t1: Token, t2: Token)
    ensures var ps := [P(VarArgType(t0), t0), P(VarKwargType(t1), t1), P(VarArgType(t2), t2)];
            ShapeDiagnostics(ps, 0) == [Diagnostic(t1, VarKwargNotLast), Diagnostic(t2, MoreThanOneVarArg)]
  {
    var ps := [P(VarArgType(t0), t0), P(VarKwargType(t1), t1), P(VarArgType(t2), t2)];
    assert VarArgBefore(TypesOf(ps), 1);
    assert ShapeDiagnostics(ps, 2) == [Diagnostic(t2, MoreThanOneVarArg)];
    assert ShapeDiagnostics(ps, 1) == [Diagnostic(t1, VarKwargNotLast), Diagnostic(t2, MoreThanOneVarArg)];
  }

  /** `(*a, *b, c)`: two `*` parameters, yet "more than one '*'" is not
      reported, because neither is last. */
  lemma ShapeExampleTwoStarsNotLast(t0: Token, t1: Token, t2: Token)
    ensures var ps := [P(VarArgType(t0), t0), P(VarArgType(t1), t1), P(Identifier(t2, "c"), t2)];
            ShapeDiagnostics(ps, 0) == [Diagnostic(t0, VarArgFollower), Diagnostic(t1, VarArgFollower)]
  {
    var ps := [P(VarArgType(t0), t0), P(VarArgType(t1), t1), P(Identifier(t2, "c"), t2)];
    assert ShapeDiagnostics(ps, 2) == [];
    assert ShapeDiagnostics(ps, 1) == [Diagnostic(t1, VarArgFollower)];
  }

  /** A parameter's default and type are visited too: under the dialect a
      pointer-type default and a reference type are both reported. */
  lemma ParamPartsVisited(p: Param, s: State)
    requires p.pDefault.PointerType? && p.pType.RefType? && Leaf(p.pName)
    ensures Params(true, [p], 0, false, s).errors ==
            s.errors + [Diagnostic(p.pDefault.tok, Dialect(PointerTypeExpr)),
                        Diagnostic(p.pType.tok, Dialect(ReferenceType))]
  {
    var s1 := Report(s, p.pDefault.tok, Dialect(PointerTypeExpr));
    DialectTypes(p.pDefault, s);
    LeafWalk(true, p.pName, s1);
    assert WalkDefaultAndName(true, p, s) == s1;
    assert ShapeViolation(p.pType, ParamTypeAfter([p], 0), false) == None;
    var s2 := Report(s1, p.pType.tok, Dialect(ReferenceType));
    DialectTypes(p.pType, s1);
    assert WalkParamType(true, p, s1) == s2;
    assert ParamStep(true, [p], 0, false, s) == s2;
  }

  /** One type node the walk leaves untouched: only its shape diagnostic. */
  lemma ParamNodeStepShape(js: bool, ns: seq<Node>, i: nat, hasVargs: bool, s: State)
    requires i < |ns| && Silent(ns[i])
    requires hasVargs == VarArgBefore(ns, i)
    ensures ParamNodes(js, ns, i, hasVargs, s) ==
            ParamNodes(js, ns, i + 1, VarArgBefore(ns, i + 1), s.(errors := s.errors + NodeShapeAt(ns, i)))
  {
    var v := ShapeViolation(ns[i], NodeAfter(ns, i), hasVargs);
    assert v == ExpectedShape(ns, i);
    var s1 := s.(errors := s.errors + NodeShapeAt(ns, i));
    if v.None? {
      assert s1 == s;
    }
    assert Walk(js, ns[i], s1) == s1;
    assert ParamNodeStep(js, ns, i, hasVargs, s) == s1;
  }

  /** Over type nodes the walk leaves untouched (leaves, by `LeavesSilent`),
      the node overload of `validate_parameters` reports exactly their shape
      diagnostics. */
  lemma {:induction false} ParamNodesShape(js: bool, ns: seq<Node>, i: nat, hasVargs: bool, s: State)
    requires i <= |ns| && AllSilent(ns)
    requires hasVargs == VarArgBefore(ns, i)
    ensures ParamNodes(js, ns, i, hasVargs, s) == s.(errors := s.errors + NodeShapeDiagnostics(ns, i))
    decreases |ns| - i
  {
    if i < |ns| {
      var s1 := s.(errors := s.errors + NodeShapeAt(ns, i));
      ParamNodeStepShape(js, ns, i, hasVargs, s);
      ParamNodesShape(js, ns, i + 1, VarArgBefore(ns, i + 1), s1);
      AppendAssoc(s.errors, NodeShapeAt(ns, i), NodeShapeDiagnostics(ns, i + 1));
    }
  }

  /** `(*, int, *)` as a function type: the follower rule reports at the
      next node, "more than one '*'" at the second `*` itself. */
  lemma NodeShapeExample(t0: Token, t1: Token, t2: Token)
    ensures NodeShapeDiagnostics([VarArgType(t0), Identifier(t1, "int"), VarArgType(t2)], 0)
            == [Diagnostic(t1, VarArgFollower), Diagnostic(t2, MoreThanOneVarArg)]
  {
    var ns := [VarArgType(t0), Identifier(t1, "int"), VarArgType(t2)];
    assert VarArgBefore(ns, 2) by {
      assert VarArgBefore(ns, 1);
    }
    assert NodeShapeDiagnostics(ns, 2) == [Diagnostic(t2, MoreThanOneVarArg)];
    assert NodeShapeDiagnostics(ns, 1) == [Diagnostic(t2, MoreThanOneVarArg)];
  }

  // ---------------------------------------------------------------------
  // Multi-assignment

  /** With leaves for names and values: no diagnostic exactly when there is
      one value or as many values as names, otherwise exactly one, "too
      many" when values outnumber names and "too few" when not. */
  lemma MultiAssignArity(js: bool, n: Node, s: State)
    requires n.MultiAssign? && AllLeaves(n.names) && AllLeaves(n.values)
    ensures var r := WalkMultiAssign(js, n, s);
            r.hasMain == s.hasMain && r.isStaticClassMember == s.isStaticClassMember
    ensures var r := WalkMultiAssign(js, n, s);
            (r.errors == s.errors) <==> (|n.values| == 1 || |n.values| == |n.names|)
    ensures var r := WalkMultiAssign(js, n, s);
            r.errors != s.errors ==>
              r.errors == s.errors + [Diagnostic(n.tok, if |n.values| > |n.names| then TooManyValues else TooFewValues)]
  {
    WalkAllLeaves(js, n.values, s);
    WalkAllLeaves(js, n.names, s);
  }

  lemma MultiAssignExamples(t: Token, a: Token, b: Token, c: Token)
    ensures WalkMultiAssign(false, MultiAssign(t, [Identifier(a, "x"), Identifier(b, "y")],
                                              [IntegerLit(a), IntegerLit(b), IntegerLit(c)]), Initial).errors
            == [Diagnostic(t, TooManyValues)]
    ensures WalkMultiAssign(false, MultiAssign(t, [Identifier(a, "w"), Identifier(a, "x"), Identifier(b, "y"), Identifier(c, "z")],
                                              [IntegerLit(a)]), Initial).errors
            == []
    ensures WalkMultiAssign(false, MultiAssign(t, [Identifier(a, "v"), Identifier(a, "w"), Identifier(a, "x"), Identifier(b, "y"), Identifier(c, "z")],
                                              [IntegerLit(a), IntegerLit(b)]), Initial).errors
            == [Diagnostic(t, TooFewValues)]
  {
    MultiAssignArity(false, MultiAssign(t, [Identifier(a, "x"), Identifier(b, "y")],
                                        [IntegerLit(a), IntegerLit(b), IntegerLit(c)]), Initial);
    MultiAssignArity(false, MultiAssign(t, [Identifier(a, "w"), Identifier(a, "x"), Identifier(b, "y"), Identifier(c, "z")],
                                        [IntegerLit(a)]), Initial);
    MultiAssignArity(false, MultiAssign(t, [Identifier(a, "v"), Identifier(a, "w"), Identifier(a, "x"), Identifier(b, "y"), Identifier(c, "z")],
                                        [IntegerLit(a), IntegerLit(b)]), Initial);
  }

  // ---------------------------------------------------------------------
  // Lambdas

  /** The lambda-only diagnostics of one parameter, all at its name: a
      default value, a variadic kind, a missing type, in that order. */
  function LambdaDiagnostics(x: Param): seq<Diagnostic> {
    (if !x.pDefault.NoLit? then [Diagnostic(x.pName.tok, LambdaDefault)] else []) +
    (if x.kind != Normal then [Diagnostic(x.pName.tok, LambdaVariadic)] else []) +
    (if x.pType.NoLit? then [Diagnostic(x.pName.tok, LambdaUntyped)] else [])
  }

  /** The same over a parameter list, parameter by parameter. */
  function LambdaListDiagnostics(ps: seq<Param>): seq<Diagnostic> {
    if ps == [] then [] else LambdaDiagnostics(ps[0]) + LambdaListDiagnostics(ps[1..])
  }

  lemma LambdaParamRule(x: Param, s: State)
    ensures LambdaParamChecks(x, s) == s.(errors := s.errors + LambdaDiagnostics(x))
  {
  }

  lemma {:induction false} LambdaChecksRule(ps: seq<Param>, s: State)
    ensures LambdaChecks(ps, s) == s.(errors := s.errors + LambdaListDiagnostics(ps))
    decreases ps
  {
    if ps == [] {
      assert s.errors + [] == s.errors;
    } else {
      var s1 := LambdaParamChecks(ps[0], s);
      LambdaParamRule(ps[0], s);
      LambdaChecksRule(ps[1..], s1);
      AppendAssoc(s.errors, LambdaDiagnostics(ps[0]), LambdaListDiagnostics(ps[1..]));
    }
  }

  lemma LambdaDispatch(js: bool, n: Node, s: State)
    requires n.Lambda?
    ensures Walk(js, n, s) == WalkLambda(js, n, s)
  {
    assert Walk(js, n, s) == WalkExpression(js, n, s);
  }

  /** A lambda whose body and parameters' parts are leaves reports the
      lambda-only diagnostics of its parameters, in order, then their shape
      diagnostics, and nothing else. */
  lemma LambdaWalk(js: bool, t: Token, body: Node, ps: seq<Param>, s: State)
    requires Leaf(body) && LeafParams(ps)
    ensures Walk(js, Lambda(t, body, ps), s) ==
            s.(errors := s.errors + LambdaListDiagnostics(ps) + ShapeDiagnostics(ps, 0))
  {
    var n := Lambda(t, body, ps);
    LambdaDispatch(js, n, s);
    LeafWalk(js, body, s);
    LambdaChecksRule(ps, s);
    var s1 := s.(errors := s.errors + LambdaListDiagnostics(ps));
    assert WalkLambda(js, n, s) == Params(js, ps, 0, false, s1);
    LeafParamsSilent(ps);
    assert !VarArgBefore(TypesOf(ps), 0);
    ParamsShape(js, ps, 0, false, s1);
  }

  // ---------------------------------------------------------------------
  // Class members and their receiver

  /** The receiver rule as diagnostics: a member needs a first parameter,
      which must be written without a type and without a default. */
  function ReceiverDiagnostics(name: Node, params: seq<Param>): seq<Diagnostic> {
    if |params| == 0 then [Diagnostic(name.tok, ReceiverMissing)]
    else
      (if !params[0].pType.NoLit? then [Diagnostic(params[0].pType.tok, ReceiverTyped)] else []) +
      (if !params[0].pDefault.NoLit? then [Diagnostic(params[0].pDefault.tok, ReceiverDefault)] else [])
  }

  lemma ReceiverErrors(name: Node, params: seq<Param>, s: State)
    ensures Receiver(name, params, s) == s.(errors := s.errors + ReceiverDiagnostics(name, params))
  {
    if |params| > 0 {
      var p := params[0];
      if !p.pType.NoLit? && !p.pDefault.NoLit? {
        AppendAssoc(s.errors, [Diagnostic(p.pType.tok, ReceiverTyped)], [Diagnostic(p.pDefault.tok, ReceiverDefault)]);
      } else if p.pType.NoLit? && p.pDefault.NoLit? {
        assert s.errors + [] == s.errors;
      }
    }
  }

  /** A function definition whose parts are leaves (an empty block for the
      body) and whose parameters' parts are leaves. */
  predicate QuietFunction(f: Node) {
    && f.FunctionDef?
    && Leaf(f.returnType) && Leaf(f.name)
    && (Leaf(f.body) || (f.body.Block? && f.body.statements == []))
    && LeafParams(f.params)
  }

  /** Such a function reports its receiver diagnostics exactly when the
      member flag is set on entry, then its shape diagnostics, and leaves
      the flag clear. */
  lemma QuietFunctionWalk(js: bool, f: Node, s: State)
    requires QuietFunction(f)
    ensures s.isStaticClassMember ==>
              WalkFunctionDef(js, f, s).errors ==
              s.errors + ReceiverDiagnostics(f.name, f.params) + ShapeDiagnostics(f.params, 0)
    ensures !s.isStaticClassMember ==>
              WalkFunctionDef(js, f, s).errors == s.errors + ShapeDiagnostics(f.params, 0)
    ensures !WalkFunctionDef(js, f, s).isStaticClassMember
  {
    LeafWalk(js, f.returnType, s);
    var s2 := if IsMainName(f.name) then s.(hasMain := true) else s;
    LeafWalk(js, f.name, s2);
    if Leaf(f.body) {
      LeafWalk(js, f.body, s2);
    } else {
      assert Walk(js, f.body, s2) == BlockFrom(js, [], 0, s2);
    }
    var s4 := if s2.isStaticClassMember
              then Receiver(f.name, f.params, s2).(isStaticClassMember := false) else s2;
    ReceiverErrors(f.name, f.params, s2);
    assert !VarArgBefore(TypesOf(f.params), 0);
    LeafParamsSilent(f.params);
    ParamsShape(js, f.params, 0, false, s4);
  }

  /** In a class body, a `private` statement and an extern struct or union
      are refused at their own token; anything else is visited. */
  lemma ClassOtherRule(js: bool, x: Node, s: State)
    ensures x.Private? ==> ClassOtherStmt(js, x, s) == Report(s, x.tok, PrivateInClass)
    ensures x.ExternStruct? ==> ClassOtherStmt(js, x, s) == Report(s, x.tok, ExternStructInClass)
    ensures x.ExternUnion? ==> ClassOtherStmt(js, x, s) == Report(s, x.tok, ExternUnionInClass)
    ensures !(x.Private? || x.ExternStruct? || x.ExternUnion?) ==> ClassOtherStmt(js, x, s) == Walk(js, x, s)
  {
  }

  /** A class method, with its qualifiers taken off, that is a method
      definition or an extern function is refused at its own token, and the
      member flag is left as it was; any other member is visited with the
      flag set unless written `static`, and the flag is cleared afterwards. */
  lemma ClassMemberRule(js: bool, m: Node, s: State)
    ensures var x := Unwrapped(m);
            x.MethodDef? ==> ClassMember(js, m, s) == Report(s, x.tok, MethodDefInClass)
    ensures var x := Unwrapped(m);
            x.ExternFuncDef? ==> ClassMember(js, m, s) == Report(s, x.tok, ExternFuncInClass)
    ensures var x := Unwrapped(m);
            !(x.MethodDef? || x.ExternFuncDef?) ==>
              ClassMember(js, m, s) ==
              Walk(js, x, if m.Static? then s else s.(isStaticClassMember := true)).(isStaticClassMember := false)
  {
  }

  /** A class member that is a function, with its qualifiers taken off:
      visited with the member flag set unless written `static`, and the flag
      cleared afterwards. */
  lemma MemberWalk(js: bool, m: Node, s: State)
    requires Unwrapped(m).FunctionDef?
    ensures ClassMember(js, m, s) ==
            WalkFunctionDef(js, Unwrapped(m), if m.Static? then s else s.(isStaticClassMember := true))
            .(isStaticClassMember := false)
  {
    var entry := if m.Static? then s else s.(isStaticClassMember := true);
    assert Walk(js, Unwrapped(m), entry) == WalkFunctionDef(js, Unwrapped(m), entry);
  }

  /** A member written without `static`, possibly `inline`: the receiver
      rule applies whatever the flag was, and the flag is clear after. */
  lemma InstanceMember(js: bool, m: Node, f: Node, s: State)
    requires QuietFunction(f) && (m == f || (m.Inline? && m.body == f))
    ensures var r := ClassMember(js, m, s);
            r.errors == s.errors + ReceiverDiagnostics(f.name, f.params) + ShapeDiagnostics(f.params, 0) &&
            !r.isStaticClassMember
  {
    assert Unwrapped(m) == f;
    MemberWalk(js, m, s);
    QuietFunctionWalk(js, f, s.(isStaticClassMember := true));
  }

  /** A member written `static`: no receiver rule, and no dialect
      diagnostic for the `static`, which the class takes off. */
  lemma StaticMember(js: bool, m: Node, f: Node, s: State)
    requires QuietFunction(f) && !s.isStaticClassMember
    requires m.Static? && m.body == f
    ensures var r := ClassMember(js, m, s);
            r.errors == s.errors + ShapeDiagnostics(f.params, 0) && !r.isStaticClassMember
  {
    assert Unwrapped(m) == f;
    MemberWalk(js, m, s);
    QuietFunctionWalk(js, f, s);
  }

  /** The same for a member written `static inline`. */
  lemma StaticInlineMember(js: bool, m: Node, f: Node, s: State)
    requires QuietFunction(f) && !s.isStaticClassMember
    requires m.Static? && m.body.Inline? && m.body.body == f
    ensures var r := ClassMember(js, m, s);
            r.errors == s.errors + ShapeDiagnostics(f.params, 0) && !r.isStaticClassMember
  {
    assert Unwrapped(m) == f;
    MemberWalk(js, m, s);
    QuietFunctionWalk(js, f, s);
  }

  // ---------------------------------------------------------------------
  // The JavaScript dialect

  /** Pointer and reference types, union literals and types and inline
      assembly are refused under the dialect, and nothing inside them is
      visited. */
  lemma DialectTypes(n: Node, s: State)
    requires n.PointerType? || n.RefType?
    ensures Walk(true, n, s) == Report(s, n.tok, Dialect(if n.PointerType? then PointerTypeExpr else ReferenceType))
  {
    assert WalkExpression(true, n, s) == Report(s, n.tok, Dialect(if n.PointerType? then PointerTypeExpr else ReferenceType));
  }

  lemma DialectBlocks(n: Node, s: State)
    requires n.UnionLit? || n.ExternUnion? || n.InlineAsm?
    ensures Walk(true, n, s) ==
            Report(s, n.tok, Dialect(if n.UnionLit? then UnionLiteral else if n.ExternUnion? then UnionType else InlineAssembly))
  {
    assert WalkExpression(true, n, s) ==
           Report(s, n.tok, Dialect(if n.UnionLit? then UnionLiteral else if n.ExternUnion? then UnionType else InlineAssembly));
  }

  /** `static` and `inline` are reported under the dialect and their body
      is visited all the same, an extern function included. */
  lemma DialectQualifiers(n: Node, s: State)
    requires n.Static? || n.Inline?
    ensures Walk(true, n, s) == Walk(true, n.body, Report(s, n.tok, Dialect(if n.Static? then StaticStmt else InlineStmt)))
  {
  }

  /** `virtual` under the dialect: its diagnostic comes first, whatever the
      body then adds. */
  lemma DialectVirtual(n: Node, s: State)
    requires n.Virtual?
    ensures |Walk(true, n, s).errors| > |s.errors|
    ensures Walk(true, n, s).errors[|s.errors|] == Diagnostic(n.tok, Dialect(VirtualStmt))
  {
    var s1 := Report(s, n.tok, Dialect(VirtualStmt));
    assert Walk(true, n, s) == WalkVirtual(true, n, s);
    assert s1.errors <= Walk(true, n, s).errors;
  }

  // ---------------------------------------------------------------------------
  // `export`, `private` and the body of `virtual`
  // ---------------------------------------------------------------------------

  /** Under `export` a method definition and an extern function are refused
      at the body's token, with nothing inside visited; any other body,
      including a class, is visited. */
  lemma ExportRule(js: bool, t: Token, b: Node, s: State)
    ensures b.MethodDef? ==> Walk(js, Export(t, b), s) == Report(s, b.tok, ExportMethodDef)
    ensures b.ExternFuncDef? ==> Walk(js, Export(t, b), s) == Report(s, b.tok, ExportExternFunc)
    ensures !(b.MethodDef? || b.ExternFuncDef?) ==> Walk(js, Export(t, b), s) == Walk(js, b, s)
  {
    assert Walk(js, Export(t, b), s) == WalkExport(js, Export(t, b), s);
  }

  /** Under `private` an extern struct, union or function is refused as
      redundant at the definition's token, with nothing inside visited; any
      other definition is visited. */
  lemma PrivateRule(js: bool, t: Token, d: Node, s: State)
    ensures d.ExternStruct? || d.ExternUnion? || d.ExternFuncDef? ==>
              Walk(js, Private(t, d), s) == Report(s, d.tok, PrivateExternRedundant)
    ensures !(d.ExternStruct? || d.ExternUnion? || d.ExternFuncDef?) ==>
              Walk(js, Private(t, d), s) == Walk(js, d, s)
  {
    assert Walk(js, Private(t, d), s) == WalkPrivate(js, Private(t, d), s);
  }

  /** After its dialect refusal, `virtual` refuses a method-definition body
      ("can't extend") and an extern-function body, each at the body's
      token and with nothing inside visited; any other body is visited. */
  lemma VirtualRule(js: bool, t: Token, b: Node, s: State)
    ensures var s1 := if js then Report(s, t, Dialect(VirtualStmt)) else s;
            b.MethodDef? ==> Walk(js, Virtual(t, b), s) == Report(s1, b.tok, MethodDefInClass)
    ensures var s1 := if js then Report(s, t, Dialect(VirtualStmt)) else s;
            b.ExternFuncDef? ==> Walk(js, Virtual(t, b), s) == Report(s1, b.tok, VirtualExternFunc)
    ensures var s1 := if js then Report(s, t, Dialect(VirtualStmt)) else s;
            !(b.MethodDef? || b.ExternFuncDef?) ==> Walk(js, Virtual(t, b), s) == Walk(js, b, s1)
  {
    assert Walk(js, Virtual(t, b), s) == WalkVirtual(js, Virtual(t, b), s);
  }

  /** `&` and `*` as prefix operators: under the dialect the operator's own
      token is reported after the operand is visited; outside it only the
      operand is visited. */
  lemma DialectPointerOperators(js: bool, n: Node, s: State)
    requires n.Prefix? && (n.prefix.tkType == TkAmpersand || n.prefix.tkType == TkMultiply)
    ensures js ==> Walk(js, n, s) == Report(Walk(js, n.right, s), n.prefix, Dialect(PointerOp))
    ensures !js ==> Walk(js, n, s) == Walk(js, n.right, s)
  {
    assert Walk(js, n, s) == WalkExpression(js, n, s);
    assert WalkExpression(js, n, s) == WalkPrefix(js, n, s);
  }

  /** Outside the dialect no dialect diagnostic is ever reported. */
  lemma NoDialectOutsideJs(ast: Node)
    ensures NoDialect(Walk(false, ast, Initial).errors)
  {
  }

  // ---------------------------------------------------------------------
  // `$` expressions and member access

  lemma CompileTimeDispatch(js: bool, n: Node, s: State)
    requires n.CompileTime?
    ensures Walk(js, n, s) == WalkCompileTime(js, n, s)
  {
    assert Walk(js, n, s) == WalkExpression(js, n, s);
  }

  /** The kinds `$` refuses: literals, imports, variable and constant
      declarations and reassignments, classes, `return`, scopes, type
      definitions, decorators, `pass`, unions, `static` and `inline`,
      `extern`, enums, casts, `export`, `raise`, `try`, extern definitions,
      a nested `$` and inline assembly. */
  lemma CompileTimeKinds(x: Node)
    ensures CompileTimeViolation(x).Some? <==>
              || x.ListLit? || x.ExprTuple? || x.DictLit? || x.IntegerLit? || x.DecimalLit?
              || x.StringLit? || x.BoolLit? || x.NoneLit? || x.Import? || x.ConstDecl?
              || x.AugAssign? || x.MultiAssign? || x.VariableStmt? || x.ClassDef? || x.Return?
              || x.Scope? || x.TypeDef? || x.Decorator? || x.Pass? || x.UnionLit? || x.Static?
              || x.Inline? || x.Extern? || x.EnumLit? || x.Cast? || x.Export? || x.Raise?
              || x.TryExcept? || x.ExternStruct? || x.ExternUnion? || x.ExternFuncDef?
              || x.CompileTime? || x.InlineAsm?
  {
  }

  /** The `$` rule for any operand: one `private` is taken off, then the
      operand is refused, at the token of the operand as written, exactly
      when it is of one of the kinds of `CompileTimeKinds`; anything else
      is visited. */
  lemma CompileTimeRule(js: bool, t: Token, e: Node, s: State)
    ensures var x := if e.Private? then e.definition else e;
            CompileTimeViolation(x).Some? <==>
              || x.ListLit? || x.ExprTuple? || x.DictLit? || x.IntegerLit? || x.DecimalLit?
              || x.StringLit? || x.BoolLit? || x.NoneLit? || x.Import? || x.ConstDecl?
              || x.AugAssign? || x.MultiAssign? || x.VariableStmt? || x.ClassDef? || x.Return?
              || x.Scope? || x.TypeDef? || x.Decorator? || x.Pass? || x.UnionLit? || x.Static?
              || x.Inline? || x.Extern? || x.EnumLit? || x.Cast? || x.Export? || x.Raise?
              || x.TryExcept? || x.ExternStruct? || x.ExternUnion? || x.ExternFuncDef?
              || x.CompileTime? || x.InlineAsm?
    ensures var x := if e.Private? then e.definition else e;
            CompileTimeViolation(x).Some? ==>
              Walk(js, CompileTime(t, e), s) == Report(s, e.tok, NotAtCompileTime(CompileTimeViolation(x).value))
    ensures var x := if e.Private? then e.definition else e;
            CompileTimeViolation(x).None? ==> Walk(js, CompileTime(t, e), s) == Walk(js, x, s)
  {
    CompileTimeKinds(if e.Private? then e.definition else e);
    CompileTimeWalk(js, t, e, s);
  }

  lemma CompileTimeWalk(js: bool, t: Token, e: Node, s: State)
    ensures var x := if e.Private? then e.definition else e;
            CompileTimeViolation(x).Some? ==>
              Walk(js, CompileTime(t, e), s) == Report(s, e.tok, NotAtCompileTime(CompileTimeViolation(x).value))
    ensures var x := if e.Private? then e.definition else e;
            CompileTimeViolation(x).None? ==> Walk(js, CompileTime(t, e), s) == Walk(js, x, s)
  {
    var n := CompileTime(t, e);
    CompileTimeDispatch(js, n, s);
  }

  /** A refusal under `$` carries the token of the expression as written:
      `$private 5` is reported at the `private`. */
  lemma CompileTimePrivateLiteral(js: bool, t: Token, pt: Token, lt: Token, s: State)
    ensures Walk(js, CompileTime(t, Private(pt, IntegerLit(lt))), s) == Report(s, pt, NotAtCompileTime(Literal))
  {
    var n := CompileTime(t, Private(pt, IntegerLit(lt)));
    assert CompileTimeViolation(IntegerLit(lt)) == Some(Literal);
    CompileTimeDispatch(js, n, s);
  }

  /** A call under `$` is visited as usual. */
  lemma CompileTimeCall(js: bool, t: Token, c: Node, s: State)
    requires c.Call?
    ensures Walk(js, CompileTime(t, c), s) == Walk(js, c, s)
  {
    var n := CompileTime(t, c);
    assert CompileTimeViolation(c).None?;
    CompileTimeDispatch(js, n, s);
  }

  /** A `$` directly under `$` is refused at the inner one, and nothing under
      it is visited. */
  lemma CompileTimeNested(js: bool, t: Token, lt: Token, e: Node, s: State)
    ensures Walk(js, CompileTime(t, CompileTime(lt, e)), s) == Report(s, lt, NotAtCompileTime(NestedCompileTime))
  {
    var n := CompileTime(t, CompileTime(lt, e));
    assert CompileTimeViolation(n.expression) == Some(NestedCompileTime);
    CompileTimeDispatch(js, n, s);
  }

  /** `.` and `->` with a leaf owner: an identifier, call, `$` expression or
      further member access on the right is visited, anything else is
      reported at its own token. */
  lemma MemberAccessRule(js: bool, n: Node, s: State)
    requires (n.Dot? || n.Arrow?) && Leaf(n.owner)
    ensures IsMemberAccess(n.referenced) ==> Walk(js, n, s) == Walk(js, n.referenced, s)
    ensures !IsMemberAccess(n.referenced) ==> Walk(js, n, s) == Report(s, n.referenced.tok, UnexpectedToken)
  {
    LeafWalk(js, n.owner, s);
    assert Walk(js, n, s) == WalkExpression(js, n, s);
    assert WalkExpression(js, n, s) == WalkMember(js, n, s);
  }

  // ---------------------------------------------------------------------
  // The entry point and the verdict

  lemma MainSetsHasMain(js: bool, f: Node, s: State)
    requires f.FunctionDef? && IsMainName(f.name)
    ensures Walk(js, f, s).hasMain
  {
  }

  /** A program with a function named `main` among its statements has an
      entry point, whatever else it holds. */
  lemma {:induction false} ProgramWithMain(js: bool, stmts: seq<Node>, k: nat, s: State)
    requires k < |stmts| && stmts[k].FunctionDef? && IsMainName(stmts[k].name)
    ensures TopLevel(js, stmts, s).hasMain
    decreases stmts
  {
    var s1 := TopLevelStmt(js, stmts[0], s);
    if k == 0 {
      MainSetsHasMain(js, stmts[0], s);
      assert s1.hasMain;
    } else {
      ProgramWithMain(js, stmts[1..], k - 1, s1);
    }
  }

  /** Hence such a program is refused exactly when a diagnostic was
      reported, whether an entry point is required or not. */
  lemma VerdictWithMain(js: bool, t: Token, stmts: seq<Node>, k: nat, shouldContainMain: bool)
    requires k < |stmts| && stmts[k].FunctionDef? && IsMainName(stmts[k].name)
    ensures var r := Walk(js, Program(t, stmts), Initial);
            Refused(r, shouldContainMain) <==> |r.errors| > 0
  {
    ProgramWithMain(js, stmts, k, Initial);
  }

  /** An empty program reports nothing, and is refused exactly when an
      entry point is required. */
  lemma VerdictEmptyProgram(js: bool, t: Token, shouldContainMain: bool)
    ensures Walk(js, Program(t, []), Initial) == Initial
    ensures Refused(Walk(js, Program(t, []), Initial), shouldContainMain) <==> shouldContainMain
  {
  }

  /** A program in which no function named `main` occurs anywhere has no
      entry point, so it is refused whenever one is required, and otherwise
      exactly when a diagnostic was reported. */
  lemma VerdictWithoutMain(js: bool, t: Token, stmts: seq<Node>, shouldContainMain: bool)
    requires MainFreeAll(stmts)
    ensures var r := Walk(js, Program(t, stmts), Initial);
            !r.hasMain && (Refused(r, shouldContainMain) <==> shouldContainMain || |r.errors| > 0)
  {
  }

  /** A leaf contains no function definition, so no `main`. */
  lemma LeafMainFree(n: Node)
    requires Leaf(n)
    ensures MainFree(n)
  {
    assert MainFreeA(n) && MainFreeB(n) && MainFreeC(n) && MainFreeD(n) && MainFreeE(n);
  }

  /** `MainFree` of a block, a `return` and a function definition follows
      from `MainFree` of their children, and of the function's name not
      being `main`. */
  lemma BlockMainFree(t: Token, stmts: seq<Node>)
    requires MainFreeAll(stmts)
    ensures MainFree(Block(t, stmts))
  {
    assert MainFreeA(Block(t, stmts));
  }

  lemma ReturnMainFree(t: Token, v: Node)
    requires MainFree(v)
    ensures MainFree(Return(t, v))
  {
    var r := Return(t, v);
    assert MainFreeA(r) && MainFreeC(r) && MainFreeD(r) && MainFreeE(r);
    assert MainFreeB(r);
  }

  lemma FunctionMainFree(t: Token, returnType: Node, name: Node, body: Node, ps: seq<Param>)
    requires !IsMainName(name) && MainFree(returnType) && MainFree(name) && MainFree(body)
    requires MainFreeParams(ps)
    ensures MainFree(FunctionDef(t, returnType, name, body, ps))
  {
    var f := FunctionDef(t, returnType, name, body, ps);
    assert MainFreeB(f) && MainFreeC(f) && MainFreeD(f) && MainFreeE(f);
    assert MainFreeA(f);
  }

  /** `fn foo() -> int: return 0` as the whole program has no entry point,
      so it is refused whenever one is required, in either dialect. */
  lemma VerdictWithoutMainExample(js: bool, t: Token)
    ensures var body := Block(t, [Return(t, IntegerLit(t))]);
            var foo := FunctionDef(t, Identifier(t, "int"), Identifier(t, "foo"), body, []);
            var r := Walk(js, Program(t, [foo]), Initial);
            !r.hasMain && Refused(r, true)
  {
    LeafMainFree(IntegerLit(t));
    ReturnMainFree(t, IntegerLit(t));
    BlockMainFree(t, [Return(t, IntegerLit(t))]);
    LeafMainFree(Identifier(t, "int"));
    LeafMainFree(Identifier(t, "foo"));
    var body := Block(t, [Return(t, IntegerLit(t))]);
    FunctionMainFree(t, Identifier(t, "int"), Identifier(t, "foo"), body, []);
    VerdictWithoutMain(js, t, [FunctionDef(t, Identifier(t, "int"), Identifier(t, "foo"), body, [])], true);
  }
}
