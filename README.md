# Peregrine AST validator and the `_format` runtime formatter

This project models two parts of the Peregrine compiler in Dafny and proves
properties of them.

- **The AST validator** (`astValidator::Validator`) runs after parsing and
  before code generation. It walks the whole syntax tree once.
  - It refuses statements that are out of place: control flow, bare
    expressions, calls and reassignments at the top level of a program;
    imports, nested `inline`, `extern` and `export` definitions inside a
    function body; `private`, `extern struct`/`union` and method
    definitions inside a class.
  - It reports code that can never run after `return`, `break`, `continue`
    or `pass`.
  - It checks the shape of parameter lists (`*`, `**`, `...`), the receiver
    parameter of class methods, multiple-assignment arity, the operands of
    `.` and `->`, and what a `$` compile-time expression may contain.
  - When compiling to JavaScript it refuses constructs that dialect lacks:
    `static`, `inline`, `virtual`, `&`/`*`, unions, pointer and reference
    types, and inline assembly.
  - It records whether a function named `main` was seen. The constructor
    refuses the unit when any diagnostic was reported, or when an entry
    point is required and none was seen.
- **`_format`** is the C runtime's string formatter. It copies the format
  string and replaces each `{}` with the next string argument.

## Structure

- `ast.dfy` (module `Ast`): tokens, the tree (`Node`, one constructor per
  node kind, with its token first), parameters, and the table of keyword
  texts used in messages.
- `diagnostics.dfy` (module `Diagnostics`):
  - each message the validator can report, as an enumerated kind with its
    parameters;
  - a diagnostic, which is a message plus the token it is reported at.
- `rules.dfy` (module `Rules`): the validator's behaviour as a function of
  the tree.
  - `Walk(js, n, s)` is the validator's state after visiting `n` from state
    `s`.
  - The state is `State(errors, hasMain, isStaticClassMember)`.
  - There is one function per visit overload, plus the list loops and both
    parameter-list loops.
  - Every one of them promises `Grows`: diagnostics are only appended,
    `hasMain` stays set once set, the member flag is never raised by a
    visit that started with it clear, and outside the JavaScript dialect no
    dialect diagnostic appears.
  - Every one of them also promises that `hasMain` is left as it was when
    no function named `main` occurs anywhere in what it visits
    (`MainFree`).
- `validator.dfy` (module `Validation`): the validator as an object.
  - Class `Validator` has the mutable fields `errors`, `hasMain` and
    `isStaticClassMember`, and one method per visit overload.
  - The loops of the source are kept as loops.
  - Each method is proved to leave the object in exactly the state the
    matching `Rules` function computes from the old state.
- `properties.dfy` (module `Properties`): what the rules mean, proved
  about `Rules`. Examples: which top-level statements are refused and with
  what message; that unreachable code is reported at the token of the
  statement after the terminator; the diagnostics a parameter list of
  markers produces; the arity rule; the receiver rule; the lambda rule;
  the class-body rules; the `export`, `private` and `virtual` rules; the
  dialect rules; the `$` rule; the verdict, with and without a `main`.
- `format.dfy` (module `Format`):
  - `Expand` and `Formatted` are the reference definition of what `_format`
    produces.
  - `FormatString` is the formatter's loop, proved to produce
    `Formatted(fmt, args)` followed by the NUL terminator.
  - The lemmas cover placeholder count, verbatim formats, templates,
    output length, needless arguments, lone braces and termination.
- `seqs.dfy` (module `Seqs`): associativity of sequence concatenation.

In the tables below, "Grows" means the property stated in the `Rules`
bullet above, and "keeps `hasMain`" means the `MainFree` promise stated
after it.

## Model

| member | source | states |
|---|---|---|
| Ast.Keyword | Peregrine/analyzer/ast_validate.cpp:8-22 | a node has a keyword text exactly when it is one of the thirteen control-flow kinds in the table |
| Ast.IsControlFlow | Peregrine/analyzer/ast_validate.cpp:43-55 | the thirteen kinds refused outside a function: `try`, `raise`, scope, `with`, `assert`, `continue`, `match`, `for`, `while`, `return`, `if`, `break`, `pass` |
| Ast.IsTerminator | Peregrine/analyzer/ast_validate.cpp:168-171 | `continue`, `break`, `pass` and `return` end a block, and each of them is a control-flow statement, so it has a keyword for the message |
| Rules.Report | Peregrine/analyzer/ast_validate.cpp:952-961 | `add_error` appends exactly one diagnostic, keeps the earlier diagnostics as a prefix, and changes neither flag; a non-dialect message adds no dialect diagnostic |
| Rules.TopLevelViolation | Peregrine/analyzer/ast_validate.cpp:42-88 | none of the top-level placement refusals is a dialect diagnostic |
| Rules.BlockViolation | Peregrine/analyzer/ast_validate.cpp:100-166 | none of the in-function placement refusals is a dialect diagnostic |
| Rules.Unwrapped | Peregrine/analyzer/ast_validate.cpp:217-235 | taking off `static`, `inline` or `static inline` yields the member itself or a strict sub-node of it, and yields an `inline` statement only when the member itself carried a qualifier; a member in which no function named `main` occurs unwraps to one in which none does |
| Rules.LambdaParamChecks | Peregrine/analyzer/ast_validate.cpp:921-929 | the three lambda parameter checks only append diagnostics, none of them a dialect diagnostic, and leave both flags as they were; which diagnostics, `Properties.LambdaParamRule` |
| Rules.LambdaChecks | Peregrine/analyzer/ast_validate.cpp:920-930 | the lambda checks over a whole parameter list only append non-dialect diagnostics and leave both flags; which diagnostics, `Properties.LambdaChecksRule` |
| Rules.Walk | Peregrine/analyzer/ast_validate.cpp:40-422 | Grows and keeps `hasMain` for the visit of any node, through the dispatch on its kind |
| Rules.WalkExpression | Peregrine/analyzer/ast_validate.cpp:423-950 | Grows and keeps `hasMain` for the visit of any expression, type expression or leaf |
| Rules.WalkClassDef | Peregrine/analyzer/ast_validate.cpp:185-257 | Grows and keeps `hasMain` for a class definition: name, parents, other definitions, attributes, then methods |
| Rules.WalkFunctionDef | Peregrine/analyzer/ast_validate.cpp:275-299 | Grows and keeps `hasMain` for a function definition, which sets `hasMain` for `main`, applies the receiver rule under the member flag and clears it |
| Rules.WalkMethodDef | Peregrine/analyzer/ast_validate.cpp:726-735 | Grows and keeps `hasMain` for a method definition |
| Rules.WalkExternFuncDef | Peregrine/analyzer/ast_validate.cpp:736-741 | Grows and keeps `hasMain` for an extern function declaration |
| Rules.WalkVariable | Peregrine/analyzer/ast_validate.cpp:300-305 | Grows and keeps `hasMain` for a variable statement |
| Rules.WalkConst | Peregrine/analyzer/ast_validate.cpp:306-311 | Grows and keeps `hasMain` for a constant declaration |
| Rules.WalkTypeDef | Peregrine/analyzer/ast_validate.cpp:312-316 | Grows and keeps `hasMain` for a type definition |
| Rules.WalkIf | Peregrine/analyzer/ast_validate.cpp:318-328 | Grows and keeps `hasMain` for an `if`: condition, body, `else` body, then the `elif` pairs |
| Rules.WalkStatic | Peregrine/analyzer/ast_validate.cpp:333-339 | Grows and keeps `hasMain` for `static`, with its dialect refusal |
| Rules.WalkInline | Peregrine/analyzer/ast_validate.cpp:340-354 | Grows and keeps `hasMain` for `inline`, with its dialect refusal |
| Rules.WalkVirtual | Peregrine/analyzer/ast_validate.cpp:559-578 | Grows and keeps `hasMain` for `virtual`; which diagnostics its body gets, `Properties.VirtualRule` |
| Rules.WalkExport | Peregrine/analyzer/ast_validate.cpp:355-372 | Grows and keeps `hasMain` for `export`; which bodies are refused, `Properties.ExportRule` |
| Rules.WalkPrivate | Peregrine/analyzer/ast_validate.cpp:880-893 | Grows and keeps `hasMain` for `private`; which definitions are refused, `Properties.PrivateRule` |
| Rules.WalkWhile | Peregrine/analyzer/ast_validate.cpp:377-381 | Grows and keeps `hasMain` for `while` |
| Rules.WalkFor | Peregrine/analyzer/ast_validate.cpp:382-390 | Grows and keeps `hasMain` for `for` |
| Rules.WalkMatch | Peregrine/analyzer/ast_validate.cpp:391-404 | Grows and keeps `hasMain` for `match`: subjects, default body, then each case |
| Rules.WalkWith | Peregrine/analyzer/ast_validate.cpp:549-558 | Grows and keeps `hasMain` for `with` |
| Rules.WalkTryExcept | Peregrine/analyzer/ast_validate.cpp:613-623 | Grows and keeps `hasMain` for `try`: body, then each handler's types, binding and body |
| Rules.WalkDecorator | Peregrine/analyzer/ast_validate.cpp:415-422 | Grows and keeps `hasMain` for a decorated definition |
| Rules.WalkAugAssign | Peregrine/analyzer/ast_validate.cpp:660-664 | Grows and keeps `hasMain` for an augmented assignment |
| Rules.WalkMultiAssign | Peregrine/analyzer/ast_validate.cpp:643-659 | Grows and keeps `hasMain` for a multiple assignment with its arity rule |
| Rules.WalkAccess | Peregrine/analyzer/ast_validate.cpp:436-442 | Grows and keeps `hasMain` for an index access |
| Rules.WalkBinaryOp | Peregrine/analyzer/ast_validate.cpp:443-447 | Grows and keeps `hasMain` for a binary operation |
| Rules.WalkPrefix | Peregrine/analyzer/ast_validate.cpp:448-456 | Grows and keeps `hasMain` for a prefix expression, with the dialect refusal of `&` and `*` |
| Rules.WalkCall | Peregrine/analyzer/ast_validate.cpp:461-467 | Grows and keeps `hasMain` for a call |
| Rules.WalkGenericCall | Peregrine/analyzer/ast_validate.cpp:935-942 | Grows and keeps `hasMain` for a generic call |
| Rules.WalkMember | Peregrine/analyzer/ast_validate.cpp:468-503 | Grows and keeps `hasMain` for `.` and `->`, with the unexpected-token rule |
| Rules.WalkTernaryIf | Peregrine/analyzer/ast_validate.cpp:607-612 | Grows and keeps `hasMain` for a conditional expression |
| Rules.WalkTernaryFor | Peregrine/analyzer/ast_validate.cpp:907-915 | Grows and keeps `hasMain` for a comprehension |
| Rules.WalkLambda | Peregrine/analyzer/ast_validate.cpp:917-933 | Grows and keeps `hasMain` for a lambda: body, lambda checks, then the parameter list |
| Rules.WalkCast | Peregrine/analyzer/ast_validate.cpp:579-583 | Grows and keeps `hasMain` for a cast |
| Rules.WalkUnionLit | Peregrine/analyzer/ast_validate.cpp:528-540 | Grows and keeps `hasMain` for a union definition, refused in the dialect |
| Rules.WalkEnumLit | Peregrine/analyzer/ast_validate.cpp:541-548 | Grows and keeps `hasMain` for an enum definition |
| Rules.WalkExternUnion | Peregrine/analyzer/ast_validate.cpp:742-754 | Grows and keeps `hasMain` for an extern union, refused in the dialect |
| Rules.WalkExternStruct | Peregrine/analyzer/ast_validate.cpp:755-762 | Grows and keeps `hasMain` for an extern struct |
| Rules.WalkInlineAsm | Peregrine/analyzer/ast_validate.cpp:894-906 | Grows and keeps `hasMain` for inline assembly, refused in the dialect |
| Rules.WalkCompileTime | Peregrine/analyzer/ast_validate.cpp:772-879 | Grows and keeps `hasMain` for a `$` expression, refused or visited by its kind |
| Rules.WalkDefaultArg | Peregrine/analyzer/ast_validate.cpp:602-606 | Grows and keeps `hasMain` for a default argument |
| Rules.WalkListType | Peregrine/analyzer/ast_validate.cpp:511-515 | Grows and keeps `hasMain` for a list type |
| Rules.WalkFunctionType | Peregrine/analyzer/ast_validate.cpp:517-521 | Grows and keeps `hasMain` for a function type, whose parameter types go through the node overload of the parameter check |
| Rules.WalkPointerType | Peregrine/analyzer/ast_validate.cpp:584-592 | Grows and keeps `hasMain` for a pointer type, refused in the dialect |
| Rules.WalkRefType | Peregrine/analyzer/ast_validate.cpp:593-601 | Grows and keeps `hasMain` for a reference type, refused in the dialect |
| Rules.WalkAll | Peregrine/analyzer/ast_validate.cpp:423-428 | Grows and keeps `hasMain` for the visit of a list of nodes in order |
| Rules.WalkPair | Peregrine/analyzer/ast_validate.cpp:429-435 | Grows and keeps `hasMain` for one dictionary entry or union field |
| Rules.WalkPairs | Peregrine/analyzer/ast_validate.cpp:429-435 | Grows and keeps `hasMain` for a list of entries |
| Rules.WalkCase | Peregrine/analyzer/ast_validate.cpp:396-402 | Grows and keeps `hasMain` for one match case |
| Rules.WalkCases | Peregrine/analyzer/ast_validate.cpp:396-402 | Grows and keeps `hasMain` for the list of cases |
| Rules.WalkHandler | Peregrine/analyzer/ast_validate.cpp:615-621 | Grows and keeps `hasMain` for one exception handler |
| Rules.WalkHandlers | Peregrine/analyzer/ast_validate.cpp:615-621 | Grows and keeps `hasMain` for the list of handlers |
| Rules.TopLevelStmt | Peregrine/analyzer/ast_validate.cpp:42-92 | Grows and keeps `hasMain` for one top-level statement, refused or visited |
| Rules.TopLevel | Peregrine/analyzer/ast_validate.cpp:40-95 | Grows and keeps `hasMain` for the statements of a program in order |
| Rules.BlockStep | Peregrine/analyzer/ast_validate.cpp:99-181 | Grows and keeps `hasMain` for statement `i` of a block, including the look-ahead rule |
| Rules.BlockFrom | Peregrine/analyzer/ast_validate.cpp:96-184 | Grows and keeps `hasMain` for the statements of a block from `i` on |
| Rules.ClassOtherStmt | Peregrine/analyzer/ast_validate.cpp:192-211 | Grows and keeps `hasMain` for one non-method definition of a class |
| Rules.ClassOther | Peregrine/analyzer/ast_validate.cpp:191-212 | Grows and keeps `hasMain` for the class's non-method definitions in order |
| Rules.ClassMember | Peregrine/analyzer/ast_validate.cpp:217-254 | Grows and keeps `hasMain` for one class method; a member that is neither a method definition nor an extern function once unwrapped leaves the member flag clear afterwards, whatever it was on entry |
| Rules.ClassMethods | Peregrine/analyzer/ast_validate.cpp:216-255 | Grows and keeps `hasMain` for the class's methods in order |
| Rules.WalkDefaultAndName | Peregrine/analyzer/ast_validate.cpp:669-670 | Grows and keeps `hasMain` for a parameter's default and name |
| Rules.WalkParamType | Peregrine/analyzer/ast_validate.cpp:693 | Grows and keeps `hasMain` for a parameter's type |
| Rules.ParamStep | Peregrine/analyzer/ast_validate.cpp:668-693 | Grows and keeps `hasMain` for one parameter of the parameter overload |
| Rules.Params | Peregrine/analyzer/ast_validate.cpp:665-695 | Grows and keeps `hasMain` for the parameter overload of `validate_parameters` from index `i` |
| Rules.ParamNodeStep | Peregrine/analyzer/ast_validate.cpp:699-723 | Grows and keeps `hasMain` for one parameter of the node overload |
| Rules.ParamNodes | Peregrine/analyzer/ast_validate.cpp:696-725 | Grows and keeps `hasMain` for the node overload of `validate_parameters` from index `i` |
| Rules.Receiver | Peregrine/analyzer/ast_validate.cpp:283-296 | the receiver rule adds nothing exactly when there is a first parameter written without a type and without a default, adds at most two diagnostics, none of them a dialect one, and changes neither flag |
| Rules.ShapeViolation | Peregrine/analyzer/ast_validate.cpp:671-692 | only `*`, `**` and `...` can be misplaced; every violation but "more than one `*`" needs a following parameter; "more than one `*`" is reported exactly for a last `*` after an earlier one; `*` followed by `**` is accepted |
| Rules.ShapeToken | Peregrine/analyzer/ast_validate.cpp:701-722 | the node overload reports at the following node, except for the last node and for "more than one `*`", which are reported at the node itself |
| Rules.CompileTimeViolation | Peregrine/analyzer/ast_validate.cpp:778-877 | the eight literal kinds are refused as literals, a `$` as a nested `$`, and extern structs, unions and functions as extern definitions, each exactly; the complete list is `Properties.CompileTimeKinds` |
| Rules.IsMemberAccess | Peregrine/analyzer/ast_validate.cpp:470-478 | the right side of `.` and `->` that is visited: an identifier, a `$` expression, a call, or a further `->` or `.` |
| Rules.IsMainName | Peregrine/analyzer/ast_validate.cpp:277-280 | a name is `main` only when it is an identifier spelled `main` |
| Rules.Refused | Peregrine/analyzer/ast_validate.cpp:28-38 | a unit is accepted exactly when no diagnostic was reported and an entry point was seen if one is required |
| Validation.Validator.constructor | Peregrine/analyzer/ast_validate.cpp:23-27 | the new validator holds its dialect and entry-point settings and the state `Walk` computes for the tree from the empty state |
| Validation.Validator.IsRefused | Peregrine/analyzer/ast_validate.cpp:28-38 | the object is in a refused state exactly when its diagnostics are not empty or an entry point is required and `hasMain` is clear |
| Validation.Validator.AddError | Peregrine/analyzer/ast_validate.cpp:952-961 | the diagnostics grow by exactly the new one at the end, and the flags are unchanged |
| Validation.Validator.Accept | Peregrine/analyzer/ast_validate.cpp:40-422 | visiting any node leaves the state `Walk` computes |
| Validation.Validator.AcceptExpression | Peregrine/analyzer/ast_validate.cpp:423-950 | visiting any expression leaves the state `WalkExpression` computes |
| Validation.Validator.AcceptEach | Peregrine/analyzer/ast_validate.cpp:423-428 | the loop over a list of nodes leaves the state `WalkAll` computes |
| Validation.Validator.VisitProgram | Peregrine/analyzer/ast_validate.cpp:40-95 | the loop over a program's statements leaves the state `TopLevel` computes |
| Validation.Validator.VisitBlock | Peregrine/analyzer/ast_validate.cpp:96-184 | the indexed loop over a block leaves the state `BlockFrom` computes from index 0 |
| Validation.Validator.VisitClassDef | Peregrine/analyzer/ast_validate.cpp:185-257 | the visit of a class leaves the state `WalkClassDef` computes |
| Validation.Validator.VisitClassOther | Peregrine/analyzer/ast_validate.cpp:192-211 | the body of the loop over other definitions leaves the state `ClassOtherStmt` computes |
| Validation.Validator.VisitClassMember | Peregrine/analyzer/ast_validate.cpp:217-254 | the body of the loop over methods leaves the state `ClassMember` computes |
| Validation.Validator.VisitFunctionDef | Peregrine/analyzer/ast_validate.cpp:275-299 | leaves the state `WalkFunctionDef` computes |
| Validation.Validator.VisitMethodDef | Peregrine/analyzer/ast_validate.cpp:726-735 | leaves the state `WalkMethodDef` computes |
| Validation.Validator.VisitIf | Peregrine/analyzer/ast_validate.cpp:318-328 | leaves the state `WalkIf` computes |
| Validation.Validator.VisitVirtual | Peregrine/analyzer/ast_validate.cpp:559-578 | leaves the state `WalkVirtual` computes, whose body refusals `Properties.VirtualRule` states |
| Validation.Validator.VisitMatch | Peregrine/analyzer/ast_validate.cpp:391-404 | leaves the state `WalkMatch` computes |
| Validation.Validator.VisitCase | Peregrine/analyzer/ast_validate.cpp:396-402 | leaves the state `WalkCase` computes |
| Validation.Validator.VisitTryExcept | Peregrine/analyzer/ast_validate.cpp:613-623 | leaves the state `WalkTryExcept` computes |
| Validation.Validator.VisitHandler | Peregrine/analyzer/ast_validate.cpp:615-621 | leaves the state `WalkHandler` computes |
| Validation.Validator.VisitMultiAssign | Peregrine/analyzer/ast_validate.cpp:643-659 | leaves the state `WalkMultiAssign` computes |
| Validation.Validator.VisitDict | Peregrine/analyzer/ast_validate.cpp:429-435 | leaves the state `WalkPairs` computes for the entries |
| Validation.Validator.VisitMember | Peregrine/analyzer/ast_validate.cpp:468-503 | leaves the state `WalkMember` computes |
| Validation.Validator.VisitLambda | Peregrine/analyzer/ast_validate.cpp:917-933 | the body, the loop of lambda checks and the parameter check leave the state `WalkLambda` computes |
| Validation.Validator.VisitUnionLit | Peregrine/analyzer/ast_validate.cpp:528-540 | leaves the state `WalkUnionLit` computes |
| Validation.Validator.VisitEnumLit | Peregrine/analyzer/ast_validate.cpp:541-548 | leaves the state `WalkEnumLit` computes |
| Validation.Validator.VisitExternUnion | Peregrine/analyzer/ast_validate.cpp:742-754 | leaves the state `WalkExternUnion` computes |
| Validation.Validator.VisitExternStruct | Peregrine/analyzer/ast_validate.cpp:755-762 | leaves the state `WalkExternStruct` computes |
| Validation.Validator.VisitCompileTime | Peregrine/analyzer/ast_validate.cpp:772-879 | leaves the state `WalkCompileTime` computes |
| Validation.Validator.VisitExternFuncDef | Peregrine/analyzer/ast_validate.cpp:736-741 | leaves the state `WalkExternFuncDef` computes |
| Validation.Validator.VisitVariable | Peregrine/analyzer/ast_validate.cpp:300-305 | leaves the state `WalkVariable` computes |
| Validation.Validator.VisitConst | Peregrine/analyzer/ast_validate.cpp:306-311 | leaves the state `WalkConst` computes |
| Validation.Validator.VisitTypeDef | Peregrine/analyzer/ast_validate.cpp:312-316 | leaves the state `WalkTypeDef` computes |
| Validation.Validator.VisitStatic | Peregrine/analyzer/ast_validate.cpp:333-339 | leaves the state `WalkStatic` computes |
| Validation.Validator.VisitInline | Peregrine/analyzer/ast_validate.cpp:340-354 | leaves the state `WalkInline` computes |
| Validation.Validator.VisitExport | Peregrine/analyzer/ast_validate.cpp:355-372 | leaves the state `WalkExport` computes, whose refusals `Properties.ExportRule` states |
| Validation.Validator.VisitPrivate | Peregrine/analyzer/ast_validate.cpp:880-893 | leaves the state `WalkPrivate` computes, whose redundancy refusal `Properties.PrivateRule` states |
| Validation.Validator.VisitWhile | Peregrine/analyzer/ast_validate.cpp:377-381 | leaves the state `WalkWhile` computes |
| Validation.Validator.VisitFor | Peregrine/analyzer/ast_validate.cpp:382-390 | leaves the state `WalkFor` computes |
| Validation.Validator.VisitWith | Peregrine/analyzer/ast_validate.cpp:549-558 | leaves the state `WalkWith` computes |
| Validation.Validator.VisitDecorator | Peregrine/analyzer/ast_validate.cpp:415-422 | leaves the state `WalkDecorator` computes |
| Validation.Validator.VisitAugAssign | Peregrine/analyzer/ast_validate.cpp:660-664 | leaves the state `WalkAugAssign` computes |
| Validation.Validator.VisitAccess | Peregrine/analyzer/ast_validate.cpp:436-442 | leaves the state `WalkAccess` computes |
| Validation.Validator.VisitBinaryOp | Peregrine/analyzer/ast_validate.cpp:443-447 | leaves the state `WalkBinaryOp` computes |
| Validation.Validator.VisitPrefix | Peregrine/analyzer/ast_validate.cpp:448-456 | leaves the state `WalkPrefix` computes |
| Validation.Validator.VisitCall | Peregrine/analyzer/ast_validate.cpp:461-467 | leaves the state `WalkCall` computes |
| Validation.Validator.VisitGenericCall | Peregrine/analyzer/ast_validate.cpp:935-942 | leaves the state `WalkGenericCall` computes |
| Validation.Validator.VisitTernaryIf | Peregrine/analyzer/ast_validate.cpp:607-612 | leaves the state `WalkTernaryIf` computes |
| Validation.Validator.VisitTernaryFor | Peregrine/analyzer/ast_validate.cpp:907-915 | leaves the state `WalkTernaryFor` computes |
| Validation.Validator.VisitCast | Peregrine/analyzer/ast_validate.cpp:579-583 | leaves the state `WalkCast` computes |
| Validation.Validator.VisitInlineAsm | Peregrine/analyzer/ast_validate.cpp:894-906 | leaves the state `WalkInlineAsm` computes |
| Validation.Validator.VisitDefaultArg | Peregrine/analyzer/ast_validate.cpp:602-606 | leaves the state `WalkDefaultArg` computes |
| Validation.Validator.VisitListType | Peregrine/analyzer/ast_validate.cpp:511-515 | leaves the state `WalkListType` computes |
| Validation.Validator.VisitFunctionType | Peregrine/analyzer/ast_validate.cpp:517-521 | leaves the state `WalkFunctionType` computes |
| Validation.Validator.VisitPointerType | Peregrine/analyzer/ast_validate.cpp:584-592 | leaves the state `WalkPointerType` computes |
| Validation.Validator.VisitRefType | Peregrine/analyzer/ast_validate.cpp:593-601 | leaves the state `WalkRefType` computes |
| Validation.Validator.AcceptDefaultAndName | Peregrine/analyzer/ast_validate.cpp:669-670 | leaves the state `WalkDefaultAndName` computes |
| Validation.Validator.AcceptParamType | Peregrine/analyzer/ast_validate.cpp:693 | leaves the state `WalkParamType` computes |
| Validation.Validator.ValidateParameters | Peregrine/analyzer/ast_validate.cpp:665-695 | the loop over parameters with its `has_vargs` flag leaves the state `Params` computes from index 0 with the flag clear |
| Validation.Validator.ReportShape | Peregrine/analyzer/ast_validate.cpp:671-692 | the branch chain reports, at the parameter's own type token, exactly the shape violation `ShapeViolation` names, or nothing |
| Validation.Validator.ValidateParameterNodes | Peregrine/analyzer/ast_validate.cpp:696-725 | the loop over parameter nodes leaves the state `ParamNodes` computes from index 0 with the flag clear |
| Validation.Validator.ReportNodeShape | Peregrine/analyzer/ast_validate.cpp:701-722 | the branch chain reports the shape violation at the next parameter's token (at this one for "more than one `*`"), or nothing |
| Properties.ValueWalk | Peregrine/analyzer/ast_validate.cpp:504-527 | visiting an identifier, integer or empty literal changes nothing |
| Properties.MarkerWalk | Peregrine/analyzer/ast_validate.cpp:763-771 | visiting a `*`, `**` or `...` marker changes nothing |
| Properties.LeafWalk | Peregrine/analyzer/ast_validate.cpp:504-527 | visiting any leaf changes nothing |
| Properties.WalkAllLeaves | Peregrine/analyzer/ast_validate.cpp:423-428 | visiting a list of leaves changes nothing |
| Properties.LeavesSilent | Peregrine/analyzer/ast_validate.cpp:504-527 | every leaf is left unchanged by the walk in both dialects and from every state |
| Properties.LeafParamsSilent | Peregrine/analyzer/ast_validate.cpp:669-693 | visiting the default, name and type of a parameter made of leaves changes nothing, in both dialects and from every state |
| Properties.RefusalsAt | Peregrine/analyzer/ast_validate.cpp:42-88 | there is one refusal per refused statement, and refusal `i` is statement `i`'s message at statement `i`'s token |
| Properties.TopLevelRefusals | Peregrine/analyzer/ast_validate.cpp:40-95 | a program made only of refused statements reports exactly their refusals, in order, and changes nothing else |
| Properties.TopLevelStatement | Peregrine/analyzer/ast_validate.cpp:42-92 | a top-level statement is refused if and only if it is control flow, a call, a reassignment or one of the seventeen expression kinds; control flow is refused with its keyword; every other statement is visited |
| Properties.TerminatorStep | Peregrine/analyzer/ast_validate.cpp:168-180 | a terminator has a keyword; before a following statement it reports "not executed" with its keyword at that statement's token and visits nothing; as the last statement it is visited |
| Properties.UnreachableReported | Peregrine/analyzer/ast_validate.cpp:96-184 | for every terminator followed by a statement, the block's diagnostics contain the "not executed" diagnostic at the following statement, whatever the earlier statements do |
| Properties.BlockBinaryOp | Peregrine/analyzer/ast_validate.cpp:115-120 | a pipeline operation in a block is silent and not visited; any other binary operation is refused as unused at its token |
| Properties.BlockStatic | Peregrine/analyzer/ast_validate.cpp:125-132 | a `static` statement in a block is refused at its token exactly when it wraps `inline`, and is never visited |
| Properties.BlockMisplaced | Peregrine/analyzer/ast_validate.cpp:121-166 | an import, `inline`, extern function, extern struct, extern union, `export`, extern statement or `private` in a block gives exactly its own message at its own token, and nothing in it is visited |
| Properties.ExpectedShape | Peregrine/analyzer/ast_validate.cpp:671-692 | every shape violation except "more than one `*`" has a following parameter |
| Properties.ParamStepShape | Peregrine/analyzer/ast_validate.cpp:668-693 | for a parameter whose parts the walk leaves unchanged, one loop iteration appends exactly the shape diagnostic of that position and carries the flag "a `*` came before" |
| Properties.ParamsShape | Peregrine/analyzer/ast_validate.cpp:665-695 | for parameters whose parts the walk leaves unchanged (such as leaves), the parameter check appends exactly the shape diagnostics of each position in order and changes nothing else |
| Properties.ShapeExampleStarKwargStar | Peregrine/analyzer/ast_validate.cpp:677-680 | `(*, **, *)` reports "`**` not last" at the second and "more than one `*`" at the third |
| Properties.ShapeExampleTwoStarsNotLast | Peregrine/analyzer/ast_validate.cpp:671-676 | `(*a, *b, c)` reports the follower error at both `*`, and no "more than one `*`", because that check runs only on the last parameter |
| Properties.ParamPartsVisited | Peregrine/analyzer/ast_validate.cpp:669-693 | in the dialect, a pointer-typed default and a reference type are both refused, default first, because each part of a parameter is visited |
| Properties.ParamNodeStepShape | Peregrine/analyzer/ast_validate.cpp:699-723 | for a node the walk leaves unchanged, one loop iteration of the node overload appends exactly the shape diagnostic of that position |
| Properties.ParamNodesShape | Peregrine/analyzer/ast_validate.cpp:696-725 | for nodes the walk leaves unchanged (such as leaves), the node overload appends exactly the shape diagnostics of each position in order and changes nothing else |
| Properties.NodeShapeExample | Peregrine/analyzer/ast_validate.cpp:701-711 | `[*, int, *]` reports the follower error at `int`, the following node, and "more than one `*`" at the last `*` |
| Properties.MultiAssignArity | Peregrine/analyzer/ast_validate.cpp:643-659 | with leaf sides, a multiple assignment is silent if and only if there is one value or as many values as names; otherwise it reports "too many" or "too few" at its token, and no flag changes |
| Properties.MultiAssignExamples | Peregrine/analyzer/ast_validate.cpp:643-659 | three values for two names are too many, one value for four names is broadcast, two values for five names are too few |
| Properties.LambdaParamRule | Peregrine/analyzer/ast_validate.cpp:921-929 | one parameter of a lambda gets, at its name, a diagnostic for a default value, one for a variadic kind and one for a missing type, in that order, and nothing else changes |
| Properties.LambdaChecksRule | Peregrine/analyzer/ast_validate.cpp:920-930 | over a parameter list, the lambda checks append exactly the diagnostics of each parameter in order |
| Properties.LambdaWalk | Peregrine/analyzer/ast_validate.cpp:917-933 | a lambda with a leaf body and leaf parameter parts reports exactly the lambda diagnostics of its parameters, then their shape diagnostics |
| Properties.ReceiverErrors | Peregrine/analyzer/ast_validate.cpp:283-294 | the receiver rule reports a missing receiver at the name, or a typed receiver and a receiver default at their own tokens, and nothing else |
| Properties.QuietFunctionWalk | Peregrine/analyzer/ast_validate.cpp:275-299 | a function with leaf parts gets the receiver diagnostics and then the shape diagnostics under the member flag, only the shape diagnostics without it, and the flag is clear afterwards |
| Properties.MemberWalk | Peregrine/analyzer/ast_validate.cpp:216-255 | a class method that unwraps to a function is that function's visit with the flag raised unless the method is written `static`, then cleared |
| Properties.ClassOtherRule | Peregrine/analyzer/ast_validate.cpp:192-211 | in a class body, `private`, an extern struct and an extern union are each refused with their own message at their own token; anything else is visited |
| Properties.ClassMemberRule | Peregrine/analyzer/ast_validate.cpp:217-254 | a class method that unwraps to a method definition or an extern function is refused with its message at its token and nothing else changes; any other member is visited with the flag set unless written `static`, and the flag is cleared afterwards |
| Properties.InstanceMember | Peregrine/analyzer/ast_validate.cpp:216-296 | a plain or `inline` method gets the receiver diagnostics and the shape diagnostics, and the flag is clear afterwards |
| Properties.StaticMember | Peregrine/analyzer/ast_validate.cpp:219-252 | entered with the member flag clear (`requires !s.isStaticClassMember`), a `static` method gets only the shape diagnostics; the receiver rule does not apply, and the flag is clear afterwards |
| Properties.StaticInlineMember | Peregrine/analyzer/ast_validate.cpp:219-252 | entered with the member flag clear (`requires !s.isStaticClassMember`), a `static inline` method gets only the shape diagnostics, and no dialect diagnostic, because class members are unwrapped rather than visited as qualifiers; the flag is clear afterwards |
| Properties.DialectTypes | Peregrine/analyzer/ast_validate.cpp:584-601 | in the dialect a pointer or reference type gives exactly its dialect diagnostic, and its base is not visited |
| Properties.DialectBlocks | Peregrine/analyzer/ast_validate.cpp:528-540 | in the dialect a union, an extern union (ast_validate.cpp:742-754) or an inline assembly block (ast_validate.cpp:894-906) gives exactly its dialect diagnostic, and nothing inside it is visited |
| Properties.DialectQualifiers | Peregrine/analyzer/ast_validate.cpp:333-354 | in the dialect `static` and `inline` are reported first and their body is still visited |
| Properties.DialectVirtual | Peregrine/analyzer/ast_validate.cpp:559-578 | in the dialect the first new diagnostic of `virtual` is its dialect refusal |
| Properties.ExportRule | Peregrine/analyzer/ast_validate.cpp:355-372 | under `export` a method definition or an extern function is refused at the body's token with its own message, and nothing inside it is visited; any other body, a class included, is visited |
| Properties.PrivateRule | Peregrine/analyzer/ast_validate.cpp:880-893 | under `private` an extern struct, union or function is refused as redundant at the definition's token, and nothing inside it is visited; any other definition is visited |
| Properties.VirtualRule | Peregrine/analyzer/ast_validate.cpp:559-578 | after the dialect refusal at the statement's token (only in the dialect), a method-definition body is refused as "can't extend" and an extern-function body as an external virtual function, each at the body's token with nothing inside visited; any other body is visited |
| Properties.DialectPointerOperators | Peregrine/analyzer/ast_validate.cpp:448-456 | `&` and `*` visit their operand; in the dialect they are then refused at the operator token, outside it nothing more happens |
| Properties.NoDialectOutsideJs | Peregrine/analyzer/ast_validate.cpp:23-27 | outside the dialect, a validator run on any tree reports no dialect diagnostic |
| Properties.CompileTimeKinds | Peregrine/analyzer/ast_validate.cpp:778-877 | `$` refuses exactly literals, imports, variable and constant declarations, augmented and multiple assignments, classes, `return`, scopes, type definitions, decorators, `pass`, unions, `static`, `inline`, `extern`, enums, casts, `export`, `raise`, `try`, extern structs, unions and functions, a nested `$` and inline assembly |
| Properties.CompileTimeWalk | Peregrine/analyzer/ast_validate.cpp:772-879 | a refused operand, with one `private` taken off, gives exactly its diagnostic at the token of the operand as written, and nothing under it is visited; any other operand is visited |
| Properties.CompileTimeRule | Peregrine/analyzer/ast_validate.cpp:772-879 | the two lemmas above together: which operands `$` refuses, and what it does with each |
| Properties.CompileTimePrivateLiteral | Peregrine/analyzer/ast_validate.cpp:772-879 | `$private 5` is refused as a literal, at the token of `private` |
| Properties.CompileTimeCall | Peregrine/analyzer/ast_validate.cpp:772-879 | a call under `$` is visited exactly as the call itself |
| Properties.CompileTimeNested | Peregrine/analyzer/ast_validate.cpp:772-879 | a `$` directly under `$` is refused at the inner `$`, and nothing under it is visited, whatever it holds |
| Properties.MemberAccessRule | Peregrine/analyzer/ast_validate.cpp:468-503 | with a leaf owner, `.` and `->` visit an accepted member and otherwise report the unexpected token at the member |
| Properties.MainSetsHasMain | Peregrine/analyzer/ast_validate.cpp:277-280 | visiting a function named `main` marks the entry point as seen |
| Properties.ProgramWithMain | Peregrine/analyzer/ast_validate.cpp:40-95 | a program with a top-level `main` anywhere among its statements has `hasMain` set afterwards |
| Properties.VerdictWithMain | Peregrine/analyzer/ast_validate.cpp:27-28 | for a program with a top-level `main`, the unit is refused if and only if some diagnostic was reported |
| Properties.VerdictEmptyProgram | Peregrine/analyzer/ast_validate.cpp:27-28 | an empty program reports nothing and is refused exactly when an entry point is required |
| Properties.VerdictWithoutMain | Peregrine/analyzer/ast_validate.cpp:27-38 | a program in which no function named `main` occurs anywhere has `hasMain` clear after the walk, so it is refused whenever an entry point is required, and otherwise exactly when a diagnostic was reported |
| Properties.LeafMainFree | Peregrine/analyzer/ast_validate.cpp:277-280 | a leaf holds no function definition, so no `main` |
| Properties.BlockMainFree | Peregrine/analyzer/ast_validate.cpp:96-184 | a block holds no `main` when none of its statements does |
| Properties.ReturnMainFree | Peregrine/analyzer/ast_validate.cpp:409-412 | a `return` holds no `main` when its value does not |
| Properties.FunctionMainFree | Peregrine/analyzer/ast_validate.cpp:275-299 | a function definition holds no `main` when its name is not `main` and none of its parts holds one |
| Properties.VerdictWithoutMainExample | Peregrine/analyzer/ast_validate.cpp:27-38 | the program `fn foo() -> int: return 0` leaves `hasMain` clear and is refused when an entry point is required |
| Format.PlaceholdersTail | swallow/builtin.h:51-72 | dropping the first character never finds more placeholders |
| Format.StepPlaceholder | swallow/builtin.h:53-62 | at a `{}` the loop appends the next argument and resumes after the `}` with the following argument |
| Format.StepLoneBrace | swallow/builtin.h:53-63 | a `{` not followed by `}` is dropped and consumes no argument |
| Format.StepCopy | swallow/builtin.h:64-69 | any other character is copied |
| Format.FormatString | swallow/builtin.h:29-81 | the buffer is the formatted text followed by one NUL, and an empty format gives the empty C string |
| Format.PlaceholdersAppend | swallow/builtin.h:51-72 | placeholders of a concatenation add up when the first part does not end in `{` |
| Format.ExpandAppend | swallow/builtin.h:51-72 | the expansion of a concatenation is the expansion of the first part followed by that of the second with the remaining arguments |
| Format.ExpandVerbatim | swallow/builtin.h:51-72 | text without braces has no placeholders and expands to itself |
| Format.VerbatimFormat | swallow/builtin.h:29-81 | a format without braces is returned unchanged whatever the arguments |
| Format.BracesZeroEndsClean | swallow/builtin.h:51-72 | text without `{` has none at any position and does not end in one |
| Format.ExpandTemplate | swallow/builtin.h:51-72 | brace-free pieces joined by `{}` have one placeholder per join and expand to the pieces interleaved with the arguments |
| Format.ExpandUsesPlaceholderArgs | swallow/builtin.h:51-72 | arguments beyond the placeholder count do not affect the expansion |
| Format.FormattedUsesPlaceholderArgs | swallow/builtin.h:29-81 | extra arguments do not affect the formatted text |
| Format.ExpandLength | swallow/builtin.h:51-72 | the expansion's length is the text's length less its braces and placeholder closers plus the lengths of the arguments used |
| Format.FormattedLength | swallow/builtin.h:29-81 | the formatted length is as for the expansion, with one more character when the format begins with a lone `{` |
| Format.ExpandNoNul | swallow/builtin.h:51-72 | NUL-free text and arguments expand to NUL-free text |
| Format.FormattedTerminated | swallow/builtin.h:74-78 | the formatted text has no NUL, so the appended NUL is the first one |
| Format.SkipBrace | swallow/builtin.h:53-63 | a lone `{` in front changes neither the placeholder count nor the expansion |
| Format.FormattedIsExpand | swallow/builtin.h:41-72 | the formatted text is the expansion, except that a leading lone `{` is kept |
| Format.ExpandLoneBrace | swallow/builtin.h:53-63 | a lone `{` after any text, including a run of `{`, may be deleted without changing the expansion |
| Format.LoneBraceDropped | swallow/builtin.h:41-72 | a lone `{` anywhere but the first position, including the later `{` of a run, does not appear in the output |
| Format.DoubleBraceExample | swallow/builtin.h:41-72 | `"{{b"` and `"{b"` both format to `"{b"`: the first `{` is kept and the second dropped |
| Format.LeadingBraceKept | swallow/builtin.h:41-46 | a lone `{` at the first position is copied to the output |
| Format.HelloWorld | swallow/builtin.h:22-26 | `"Hello {}!\n"` with `"world"` formats to `"Hello world!\n"` |

## Left out

- Diagnostic text, sub-messages, hints, error codes and the file name are
  not modelled. Each message is an enumerated kind with its parameters.
  The keyword text is kept exactly as the table has it, including the
  unbalanced quote in `'try`.
- The constructor's printing of diagnostics, its "does not contain a main
  function" message and `exit(1)` are left out as I/O. Its verdict is the
  predicate `Validator.IsRefused` (and `Rules.Refused`).
- The import visit only prints the module's name. Its output is I/O, and
  the model treats the visit as changing nothing.
- `accept`'s double dispatch and the node classes come from the AST
  library, which is not part of this model. They are a datatype with one
  constructor per kind, and the dispatch is `Walk`.
- `AstKind` values of union and enum literals, and the initial values of
  `m_has_main` and `is_static_class_member`, come from headers that are
  not part of this model. The model assumes the natural kinds and flags
  that start false.
- A function definition whose name is not an identifier would make the
  source dereference a null pointer when it reads the name. The model
  treats such a function as not `main`.
- The model follows the code as written, including these behaviours:
  - "More than one `*`" is checked only when the second `*` is the last
    parameter.
  - The inline-statement visit switches on its own kind, so its
    extern-function branch is never taken.
  - A pipeline operation is refused at the top level but not inside a
    block.
  - A `static` statement inside a block is never visited.
  - A class member written `static inline` gets no dialect diagnostic.
  - `hasMain` is set by any visited `main`, including a class method.
  - A function nested inside a member consumes the member flag.
  - An exported class is visited like any other statement. Under
    `export`, only method definitions and extern functions are refused
    (ast_validate.cpp:355-372).
- Properties.MultiAssignArity, Properties.QuietFunctionWalk,
  Properties.InstanceMember, Properties.StaticMember,
  Properties.StaticInlineMember and Properties.LambdaWalk are stated for
  leaf children. Properties.ParamsShape and
  Properties.ParamNodesShape are stated for children the walk leaves
  unchanged. For other children the visits of the children interleave with
  the diagnostics, and only `Grows` is stated.
- `_format`'s `malloc`/`realloc` growth is sequence append. Allocation
  failure is not modelled, and neither is the zero-byte `realloc` that
  `"{}"` with an empty argument performs, whose result the C standard
  leaves to the implementation.
- `_format` reads arguments with `va_arg`. Reading past the last argument
  is undefined behaviour, so `FormatString` requires at least as many
  arguments as placeholders. Arguments are strings without NUL
  characters, as C strings are.
- The other declarations of `swallow/builtin.h` (`_colorprint`, `mypow`,
  `round_number`) and the type checker are not part of this model.
