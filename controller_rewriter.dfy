/**
 * The controller-stub rewriter: in every endpoint-controller stub it
 * removes the nested `Operations` class, strips the `request` parameter off
 * its methods, and appends a `RequestManager` class built from them and
 * from the runtime request manager, with a `request: <Cls>.RequestManager`
 * accessor. Placeholder type names are resolved to the models a controller
 * binds. The visitor is specified as functions over the rewriter's state;
 * the class below performs the same walk step by step.
 */
module ControllerRewriter {
  import opened Wrappers
  import opened Text
  import opened StubAst
  import opened OrderedMaps
  import opened StubTransformerBase

  const ControllerClassName: string := "NexosAIAPIEndpointController"
  const OperationsClassName: string := "Operations"
  /** `RequestManagerNestedClass.__name__` */
  const NestedManagerName: string := "_RequestManager"
  /** The nested class name with its leading `_` removed. */
  const ManagerName: string := "RequestManager"
  const RequestGeneric: string := "EndpointRequestType"
  const ResponseGeneric: string := "EndpointResponseType"
  /** `str(EndpointResponseType)`: a type variable prints behind a `~`. */
  const ResponseGenericText: string := "~" + ResponseGeneric
  const OverrideDecoratorName: string := "typing.override"
  const AnyModel: string := "typing.Any"
  const RequestModelSlot: string := "request_model"
  const ResponseModelSlot: string := "response_model"
  const RequestParamName: string := "request"
  const RequestParamDoc: string := ":param request:"
  const DefaultImports: seq<string> := ["from __future__ import annotations", "import typing"]

  /** One `ControllerDataModelsDict`. */
  datatype DataModels = DataModels(requestModel: string, responseModel: string)

  /** `<Cls>.RequestManager` */
  function ManagerRef(cls: string): string {
    cls + "." + ManagerName
  }

  lemma ManagerRefSpelled(cls: string)
    ensures ManagerRef(cls) == cls + ".RequestManager"
  {
    assert "." + ManagerName == ".RequestManager";
  }

  // ---------------------------------------------------------------------
  // get_model_assignment_info

  /** `extract_name`: a dotted name, a subscript reduced to its value, `""` otherwise. */
  function DottedName(e: Expr): string {
    match e
    case Name(id) => id
    case Attribute(v, attr) => DottedName(v) + "." + attr
    case Subscript(v, _) => DottedName(v)
    case _ => ""
  }

  /** The expression `root.a1.a2...`. */
  function AttributeChain(root: string, attrs: seq<string>): Expr
    decreases |attrs|
  {
    if attrs == [] then Name(root)
    else Attribute(AttributeChain(root, attrs[..|attrs| - 1]), attrs[|attrs| - 1])
  }

  /** An attribute chain, subscripted or not, renders as its parts joined by dots. */
  lemma {:induction false} DottedNameOfChain(root: string, attrs: seq<string>, slice: Expr)
    ensures DottedName(AttributeChain(root, attrs)) == Join([root] + attrs, ".")
    ensures DottedName(Subscript(AttributeChain(root, attrs), slice)) == Join([root] + attrs, ".")
    decreases |attrs|
  {
    if attrs != [] {
      var n := |attrs|;
      DottedNameOfChain(root, attrs[..n - 1], slice);
      JoinAppend([root] + attrs[..n - 1], attrs[n - 1], ".");
      assert [root] + attrs[..n - 1] + [attrs[n - 1]] == [root] + attrs;
    }
  }

  /** `get_model_assignment_info(assign_node)` */
  function ModelAssignmentInfo(s: Stmt): Option<(string, string)>
    requires s.Assign?
  {
    if |s.targets| == 0 then None
    else if !s.targets[0].Name? then None
    else if s.targets[0].id != RequestModelSlot && s.targets[0].id != ResponseModelSlot then None
    else Some((s.targets[0].id, DottedName(s.value)))
  }

  /** Only a first target naming one of the two model slots yields an answer, and it carries the rendered value. */
  lemma ModelAssignmentInfoSpec(s: Stmt)
    requires s.Assign?
    ensures ModelAssignmentInfo(s).Some? <==>
              |s.targets| > 0 && (s.targets[0] == Name(RequestModelSlot) || s.targets[0] == Name(ResponseModelSlot))
    ensures ModelAssignmentInfo(s).Some? ==> ModelAssignmentInfo(s).value == (s.targets[0].id, DottedName(s.value))
  {
  }

  /** `s` is `slot = <value>` with a single plain-name target and a non-empty rendered value. */
  predicate BindsModel(s: Stmt, slot: string) {
    s.Assign? && |s.targets| == 1 && s.targets[0] == Name(slot) && DottedName(s.value) != ""
  }

  /** What the `found_models` loop leaves under `slot` (`""` for `None`): the last assignment wins. */
  function FoundModel(body: seq<Stmt>, slot: string): string
    decreases |body|
  {
    if body == [] then ""
    else
      var prev := FoundModel(body[..|body| - 1], slot);
      var s := body[|body| - 1];
      if s.Assign? && |s.targets| == 1 && s.targets[0].Name? then
        match ModelAssignmentInfo(s)
        case Some((assignee, assignment)) =>
          if assignee != "" && assignment != "" && assignee == slot then assignment else prev
        case None => prev
      else prev
  }

  /** One step of the `found_models` loop: a binding statement overrides, anything else keeps. */
  lemma FoundModelStep(body: seq<Stmt>, slot: string)
    requires body != []
    requires slot == RequestModelSlot || slot == ResponseModelSlot
    ensures var last := body[|body| - 1];
            FoundModel(body, slot) == if BindsModel(last, slot) then DottedName(last.value) else FoundModel(body[..|body| - 1], slot)
  {
    var last := body[|body| - 1];
    if last.Assign? && |last.targets| == 1 && last.targets[0].Name? {
      ModelAssignmentInfoSpec(last);
    }
  }

  /** Nothing is found exactly when no statement binds the slot. */
  lemma {:induction false} FoundModelNone(body: seq<Stmt>, slot: string)
    requires slot == RequestModelSlot || slot == ResponseModelSlot
    ensures FoundModel(body, slot) == "" <==> forall k :: 0 <= k < |body| ==> !BindsModel(body[k], slot)
    decreases |body|
  {
    if body != [] {
      var n := |body|;
      var init := body[..n - 1];
      FoundModelNone(init, slot);
      FoundModelStep(body, slot);
      assert forall k :: 0 <= k < n - 1 ==> init[k] == body[k];
    }
  }

  /** A model found is the value of the last binding statement. */
  lemma {:induction false} FoundModelLast(body: seq<Stmt>, slot: string)
    requires slot == RequestModelSlot || slot == ResponseModelSlot
    ensures FoundModel(body, slot) != "" ==>
              exists k :: 0 <= k < |body| && BindsModel(body[k], slot) && DottedName(body[k].value) == FoundModel(body, slot)
                          && forall j :: k < j < |body| ==> !BindsModel(body[j], slot)
    decreases |body|
  {
    if body != [] {
      var n := |body|;
      var init := body[..n - 1];
      FoundModelLast(init, slot);
      FoundModelStep(body, slot);
      var last := body[n - 1];
      if BindsModel(last, slot) {
        assert DottedName(body[n - 1].value) == FoundModel(body, slot);
      } else if FoundModel(init, slot) != "" {
        var k :| 0 <= k < n - 1 && BindsModel(init[k], slot) && DottedName(init[k].value) == FoundModel(init, slot)
                 && forall j :: k < j < n - 1 ==> !BindsModel(init[j], slot);
        assert init[k] == body[k];
        forall j | k < j < n ensures !BindsModel(body[j], slot) {
          if j < n - 1 {
            assert init[j] == body[j];
          }
        }
      }
    }
  }

  /**
   * The model found for a slot is the value of the last statement that binds
   * it; with no such statement nothing is found.
   */
  lemma FoundModelSpec(body: seq<Stmt>, slot: string)
    requires slot == RequestModelSlot || slot == ResponseModelSlot
    ensures FoundModel(body, slot) == "" <==> forall k :: 0 <= k < |body| ==> !BindsModel(body[k], slot)
    ensures FoundModel(body, slot) != "" ==>
              exists k :: 0 <= k < |body| && BindsModel(body[k], slot) && DottedName(body[k].value) == FoundModel(body, slot)
                          && forall j :: k < j < |body| ==> !BindsModel(body[j], slot)
  {
    FoundModelNone(body, slot);
    FoundModelLast(body, slot);
  }

  function OrAny(name: string): string {
    if name == "" then AnyModel else name
  }

  /** The models a direct controller subclass binds through its class-level assignments. */
  function ControllerModels(body: seq<Stmt>): DataModels {
    DataModels(OrAny(FoundModel(body, RequestModelSlot)), OrAny(FoundModel(body, ResponseModelSlot)))
  }

  // ---------------------------------------------------------------------
  // _add_typing_override_decorator_to_function

  predicate HasOverride(decorators: seq<Expr>) {
    exists k :: 0 <= k < |decorators| && decorators[k] == Name(OverrideDecoratorName)
  }

  function AddOverrideDecorator(f: Stmt): Stmt
    requires f.FunctionDef?
  {
    if HasOverride(f.decorators) then f
    else FunctionDef(f.name, f.isAsync, f.params, f.returnType, f.body, f.decorators + [Name(OverrideDecoratorName)])
  }

  /**
   * The decorator is present afterwards, nothing but the decorator list
   * changes, at most one entry is added, and a second application changes
   * nothing.
   */
  lemma AddOverrideSpec(f: Stmt)
    requires f.FunctionDef?
    ensures var g := AddOverrideDecorator(f);
            g.FunctionDef? && HasOverride(g.decorators)
            && g.name == f.name && g.isAsync == f.isAsync && g.params == f.params
            && g.returnType == f.returnType && g.body == f.body
            && (g.decorators == f.decorators || g.decorators == f.decorators + [Name(OverrideDecoratorName)])
            && AddOverrideDecorator(g) == g
  {
    var g := AddOverrideDecorator(f);
    if !HasOverride(f.decorators) {
      assert g.decorators[|f.decorators|] == Name(OverrideDecoratorName);
    }
  }

  // ---------------------------------------------------------------------
  // rewrite_function_parameters

  /** The placeholder spellings that resolve to the bound models. */
  function PlaceholderMapping(m: DataModels): map<string, string> {
    map["" + RequestGeneric := m.requestModel, "_" + RequestGeneric := m.requestModel,
        "~_" + RequestGeneric := m.requestModel,
        "" + ResponseGeneric := m.responseModel, "_" + ResponseGeneric := m.responseModel,
        "~_" + ResponseGeneric := m.responseModel]
  }

  function ReplaceOperand(e: Expr, mapping: map<string, string>): Expr {
    if e.Name? && e.id in mapping then Name(mapping[e.id]) else e
  }

  /** `replace_annotation`: names, the two sides of a binary operator, and both parts of a subscript. */
  function ReplaceAnnotation(e: Expr, mapping: map<string, string>): Expr {
    match e
    case BinOp(l, op, r) => BinOp(ReplaceOperand(l, mapping), op, ReplaceOperand(r, mapping))
    case Name(id) => if id in mapping then Name(mapping[id]) else e
    case Subscript(v, s) => Subscript(ReplaceAnnotation(v, mapping), ReplaceAnnotation(s, mapping))
    case _ => e
  }

  /** Some name in a position `replace_annotation` looks at is a key of the mapping. */
  predicate Reaches(e: Expr, mapping: map<string, string>) {
    match e
    case BinOp(l, _, r) => (l.Name? && l.id in mapping) || (r.Name? && r.id in mapping)
    case Name(id) => id in mapping
    case Subscript(v, s) => Reaches(v, mapping) || Reaches(s, mapping)
    case _ => false
  }

  predicate ValuesAreNotKeys(mapping: map<string, string>) {
    forall k :: k in mapping ==> mapping[k] !in mapping
  }

  /** An annotation with no reachable placeholder comes back unchanged. */
  lemma {:induction false} ReplaceUnreached(e: Expr, mapping: map<string, string>)
    requires !Reaches(e, mapping)
    ensures ReplaceAnnotation(e, mapping) == e
  {
    match e
    case Subscript(v, s) =>
      ReplaceUnreached(v, mapping);
      ReplaceUnreached(s, mapping);
    case _ =>
  }

  /**
   * When no model name is itself a placeholder, nothing replaceable is left,
   * so a second pass changes nothing.
   */
  lemma {:induction false} ReplaceResolvesAll(e: Expr, mapping: map<string, string>)
    requires ValuesAreNotKeys(mapping)
    ensures !Reaches(ReplaceAnnotation(e, mapping), mapping)
    ensures ReplaceAnnotation(ReplaceAnnotation(e, mapping), mapping) == ReplaceAnnotation(e, mapping)
  {
    match e
    case Subscript(v, s) =>
      ReplaceResolvesAll(v, mapping);
      ReplaceResolvesAll(s, mapping);
    case _ =>
    ReplaceUnreached(ReplaceAnnotation(e, mapping), mapping);
  }

  /** Each spelling of the placeholders, alone or beside `|`, resolves to the bound model. */
  lemma PlaceholdersResolve(m: DataModels, prefix: string, other: Expr)
    requires prefix == "" || prefix == "_" || prefix == "~_"
    ensures ReplaceAnnotation(Name(prefix + RequestGeneric), PlaceholderMapping(m)) == Name(m.requestModel)
    ensures ReplaceAnnotation(Name(prefix + ResponseGeneric), PlaceholderMapping(m)) == Name(m.responseModel)
    ensures ReplaceAnnotation(BinOp(Name(prefix + ResponseGeneric), BitOr, other), PlaceholderMapping(m)).left
            == Name(m.responseModel)
  {
    assert ("_" + RequestGeneric)[0] != ("" + ResponseGeneric)[0];
    assert ("~_" + RequestGeneric)[0] != ("_" + ResponseGeneric)[0];
    assert |"" + RequestGeneric| < |"" + ResponseGeneric| < |"~_" + RequestGeneric| < |"~_" + ResponseGeneric|;
  }

  function ReplaceArgAnnotation(a: Arg, mapping: map<string, string>): Arg {
    if a.annotation.Some? then Arg(a.name, Some(ReplaceAnnotation(a.annotation.value, mapping))) else a
  }

  function ReplaceArgsAnnotations(args: seq<Arg>, mapping: map<string, string>): (r: seq<Arg>)
    ensures |r| == |args|
    decreases |args|
  {
    if args == [] then []
    else ReplaceArgsAnnotations(args[..|args| - 1], mapping) + [ReplaceArgAnnotation(args[|args| - 1], mapping)]
  }

  lemma {:induction false} ReplaceArgsAt(args: seq<Arg>, mapping: map<string, string>, k: nat)
    requires k < |args|
    ensures ReplaceArgsAnnotations(args, mapping)[k] == ReplaceArgAnnotation(args[k], mapping)
    decreases |args|
  {
    if k < |args| - 1 {
      ReplaceArgsAt(args[..|args| - 1], mapping, k);
    }
  }

  function ReplaceOptionalArg(a: Option<Arg>, mapping: map<string, string>): Option<Arg> {
    if a.Some? then Some(ReplaceArgAnnotation(a.value, mapping)) else None
  }

  function ReplaceReturn(r: Option<Expr>, mapping: map<string, string>): Option<Expr> {
    if r.Some? then Some(ReplaceAnnotation(r.value, mapping)) else None
  }

  function ReplaceSignature(f: Stmt, mapping: map<string, string>): (g: Stmt)
    requires f.FunctionDef?
  {
    FunctionDef(f.name, f.isAsync,
                Params(ReplaceArgsAnnotations(f.params.args, mapping), ReplaceOptionalArg(f.params.vararg, mapping),
                       ReplaceArgsAnnotations(f.params.kwonly, mapping), ReplaceOptionalArg(f.params.kwarg, mapping)),
                ReplaceReturn(f.returnType, mapping), f.body, f.decorators)
  }

  /** The mapping applied to a function: `None` when the controller is unset or unbound. */
  function SignatureMapping(generics: Dict<DataModels>, current: string): Option<map<string, string>> {
    if current == "" then None
    else match Get(generics, current)
      case Some(m) => Some(PlaceholderMapping(m))
      case None => None
  }

  /** The annotation rewrite of `rewrite_function_parameters`, before its `generic_visit`. */
  function RewriteSignature(generics: Dict<DataModels>, current: string, f: Stmt): (g: Stmt)
    requires f.FunctionDef?
    ensures g.FunctionDef? && g.name == f.name && g.isAsync == f.isAsync && g.body == f.body
            && g.decorators == f.decorators
  {
    if StartsWith(f.name, "__") then f
    else match SignatureMapping(generics, current)
      case Some(mapping) => ReplaceSignature(f, mapping)
      case None => f
  }

  /** A dunder, or a function met with no bound controller, keeps its signature. */
  lemma RewriteSignatureUntouched(generics: Dict<DataModels>, current: string, f: Stmt)
    requires f.FunctionDef?
    requires StartsWith(f.name, "__") || current == "" || current !in Keys(generics)
    ensures RewriteSignature(generics, current, f) == f
  {
  }

  /**
   * Inside a bound controller, every parameter keeps its name and place and
   * every annotation is the rewritten one.
   */
  lemma RewriteSignatureBound(generics: Dict<DataModels>, current: string, f: Stmt, k: nat)
    requires f.FunctionDef? && !StartsWith(f.name, "__") && current != "" && Get(generics, current).Some?
    requires k < |f.params.args|
    ensures var g := RewriteSignature(generics, current, f);
            var mapping := PlaceholderMapping(Get(generics, current).value);
            |g.params.args| == |f.params.args|
            && g.params.args[k].name == f.params.args[k].name
            && g.params.args[k].annotation == ReplaceArgAnnotation(f.params.args[k], mapping).annotation
            && g.returnType == ReplaceReturn(f.returnType, mapping)
  {
    ReplaceArgsAt(f.params.args, PlaceholderMapping(Get(generics, current).value), k);
  }

  // ---------------------------------------------------------------------
  // remove_request_argument_from_methods

  /** `[arg for arg in args if arg.arg != "request"]` */
  function WithoutRequestParams(args: seq<Arg>): seq<Arg>
    decreases |args|
  {
    if args == [] then []
    else
      var prev := WithoutRequestParams(args[..|args| - 1]);
      if args[|args| - 1].name == RequestParamName then prev else prev + [args[|args| - 1]]
  }

  /** No `request` parameter survives, and exactly the others do. */
  lemma {:induction false} WithoutRequestParamsSpec(args: seq<Arg>)
    ensures forall k :: 0 <= k < |WithoutRequestParams(args)| ==> WithoutRequestParams(args)[k].name != RequestParamName
    ensures forall a :: a in WithoutRequestParams(args) <==> a in args && a.name != RequestParamName
    decreases |args|
  {
    if args != [] {
      WithoutRequestParamsSpec(args[..|args| - 1]);
      assert args == args[..|args| - 1] + [args[|args| - 1]];
    }
  }

  /** Filtering splits over concatenation, so the kept parameters keep their relative order. */
  lemma {:induction false} WithoutRequestParamsAppend(a: seq<Arg>, b: seq<Arg>)
    ensures WithoutRequestParams(a + b) == WithoutRequestParams(a) + WithoutRequestParams(b)
    decreases |b|
  {
    if b == [] {
      assert a + b == a;
    } else {
      var n := |b|;
      assert (a + b)[..|a + b| - 1] == a + b[..n - 1];
      WithoutRequestParamsAppend(a, b[..n - 1]);
    }
  }

  /** A parameter list without `request` is left exactly as it is. */
  lemma {:induction false} WithoutRequestParamsNone(args: seq<Arg>)
    requires forall k :: 0 <= k < |args| ==> args[k].name != RequestParamName
    ensures WithoutRequestParams(args) == args
    decreases |args|
  {
    if args != [] {
      WithoutRequestParamsNone(args[..|args| - 1]);
      assert args == args[..|args| - 1] + [args[|args| - 1]];
    }
  }

  /** The docstring lines that do not document `request`. */
  function DropRequestLines(lines: seq<string>): (r: seq<string>)
    ensures forall k :: 0 <= k < |r| ==> !Contains(r[k], RequestParamDoc)
    decreases |lines|
  {
    if lines == [] then []
    else
      var prev := DropRequestLines(lines[..|lines| - 1]);
      if Contains(lines[|lines| - 1], RequestParamDoc) then prev else prev + [lines[|lines| - 1]]
  }

  /** The docstring put at the head of a stripped method. */
  function CleanedDocstring(body: seq<Stmt>): string {
    var text := match GetDocstring(body) case Some(d) => d case None => "";
    IndentDocstring(Some(Join(DropRequestLines(SplitLines(text)), "\n")), 12)
  }

  /** The cleaned, re-indented docstring never mentions `:param request:`. */
  lemma CleanedDocstringHasNoRequestParam(body: seq<Stmt>)
    ensures !Contains(CleanedDocstring(body), RequestParamDoc)
  {
    var text := match GetDocstring(body) case Some(d) => d case None => "";
    var joined := Join(DropRequestLines(SplitLines(text)), "\n");
    NotContainsJoin(DropRequestLines(SplitLines(text)), RequestParamDoc);
    if joined != "" {
      var lines := SplitLines(joined);
      forall k | 0 <= k < |lines| ensures !Contains(lines[k], RequestParamDoc) {
        if Contains(lines[k], RequestParamDoc) {
          SplitLinesContains(joined, k, RequestParamDoc);
        }
      }
      var parts := [lines[0]] + IndentLines(lines[1..], 12);
      forall k | 0 <= k < |parts| ensures !Contains(parts[k], RequestParamDoc) {
        if k > 0 {
          NotContainsIndented(12, lines[k], RequestParamDoc);
        }
      }
      NotContainsJoin(parts, RequestParamDoc);
    } else {
      assert !Contains("", RequestParamDoc);
    }
  }

  /** `stmt.body[0] = new_docstring_expr` */
  function ReplaceFirst(body: seq<Stmt>, s: Stmt): seq<Stmt> {
    if body == [] then [s] else [s] + body[1..]
  }

  /** One statement of the `remove_request_argument_from_methods` loop. */
  function StripOperation(current: string, s: Stmt): Stmt {
    if s.FunctionDef? then
      FunctionDef(s.name, s.isAsync,
                  Params(WithoutRequestParams(s.params.args), s.params.vararg, s.params.kwonly, s.params.kwarg),
                  Some(Name(ManagerRef(current))), ReplaceFirst(s.body, DocExpr(CleanedDocstring(s.body))),
                  s.decorators)
    else s
  }

  /** `remove_request_argument_from_methods(body)` */
  function StripOperations(current: string, body: seq<Stmt>): (r: seq<Stmt>)
    ensures |r| == |body| && forall k :: 0 <= k < |body| ==> r[k] == StripOperation(current, body[k])
    decreases |body|
  {
    if body == [] then [] else StripOperations(current, body[..|body| - 1]) + [StripOperation(current, body[|body| - 1])]
  }

  /**
   * A stripped statement: non-functions pass through; a function keeps its
   * name, kind and decorators, loses every `request` parameter, returns
   * `<current>.RequestManager`, and starts with a docstring that does not
   * document `request`.
   */
  lemma StripOperationSpec(current: string, s: Stmt)
    ensures var r := StripOperation(current, s);
            (!s.FunctionDef? ==> r == s)
            && (s.FunctionDef? ==>
                  r.FunctionDef? && r.name == s.name && r.isAsync == s.isAsync && r.decorators == s.decorators
                  && (forall j :: 0 <= j < |r.params.args| ==> r.params.args[j].name != RequestParamName)
                  && r.returnType == Some(Name(current + ".RequestManager"))
                  && |r.body| > 0 && GetDocstring(r.body).Some?
                  && !Contains(GetDocstring(r.body).value, RequestParamDoc))
  {
    if s.FunctionDef? {
      ManagerRefSpelled(current);
      WithoutRequestParamsSpec(s.params.args);
      CleanedDocstringHasNoRequestParam(s.body);
    }
  }

  // ---------------------------------------------------------------------
  // add_original_request_manager_body

  /**
   * What reflection yields for a `_RequestManager` return hint after the
   * union step: its `__name__`, and its rendering (`__name__` for a class,
   * `str()` otherwise).
   */
  datatype ReturnHint = ReturnHint(name: string, rendered: string)

  /**
   * One entry of `RequestManagerNestedClass.__dict__`: its name, whether it
   * is callable, its `__doc__`, the parsed definition that
   * `get_method_ast_node` finds (or `None`), and its return hint.
   */
  datatype MethodDescriptor = MethodDescriptor(name: string, isCallable: bool, doc: Option<string>,
                                               node: Option<Stmt>, returnHint: Option<ReturnHint>)

  /** A missing hint stands for `typing.Any`, a class named `Any`. */
  function HintOrAny(h: Option<ReturnHint>): ReturnHint {
    if h.Some? then h.value else ReturnHint("Any", "Any")
  }

  /** The rendered return annotation, and whether it is truthy. */
  function ReturnText(hint: ReturnHint, models: Option<DataModels>): (string, bool) {
    if Contains(ResponseGenericText, hint.name) then
      if models.Some? then (models.value.responseModel, models.value.responseModel != "") else (AnyModel, true)
    else (hint.rendered, true)
  }

  /** The parameters after a leading `self`. */
  function ArgsAfterSelf(args: seq<Arg>): seq<Arg> {
    if |args| > 0 && args[0].name == "self" then args[1..] else args
  }

  /** The passthrough method `add_original_request_manager_body` compiles for one entry, if any. */
  function SynthesizeMethod(d: MethodDescriptor, current: string, models: Option<DataModels>): Option<Stmt> {
    if StartsWith(d.name, "__") || !d.isCallable || d.node.None? || !d.node.value.FunctionDef? then None
    else
      var found := AddOverrideDecorator(d.node.value);
      var (text, present) := ReturnText(HintOrAny(d.returnHint), models);
      var serialized := if text == NestedManagerName then ManagerRef(current) else text;
      var doc := IndentDocstring(d.doc, 12);
      Some(FunctionDef(d.name, found.isAsync, Params([Arg("self", None)] + ArgsAfterSelf(found.params.args), None, [], None),
                       if present then Some(Name(serialized)) else None,
                       [if doc == "" then Pass else DocExpr(doc)], []))
  }

  /**
   * A synthesized method keeps the entry's name and the definition's kind
   * and parameters after one leading `self`, takes a fresh `self`, carries
   * no decorator (the override marker lands on the discarded node), and its
   * body is a single `pass` or docstring. Dunder entries are skipped.
   */
  lemma SynthesizeMethodSpec(d: MethodDescriptor, current: string, models: Option<DataModels>)
    ensures StartsWith(d.name, "__") || !d.isCallable || d.node.None? ==> SynthesizeMethod(d, current, models).None?
    ensures SynthesizeMethod(d, current, models).Some? ==>
              var f := SynthesizeMethod(d, current, models).value;
              var n := d.node.value;
              f.FunctionDef? && n.FunctionDef? && f.name == d.name && f.isAsync == n.isAsync
              && f.params.args == [Arg("self", None)] + ArgsAfterSelf(n.params.args)
              && f.decorators == [] && f.body == [if IndentDocstring(d.doc, 12) == "" then Pass else DocExpr(IndentDocstring(d.doc, 12))]
  {
    if SynthesizeMethod(d, current, models).Some? {
      AddOverrideSpec(d.node.value);
    }
  }

  /** `'_'` never occurs in `~EndpointResponseType`, so no name holding it is taken for the response placeholder. */
  lemma UnderscoreNotInResponseGeneric(name: string)
    requires '_' in name
    ensures !Contains(ResponseGenericText, name)
  {
    var j :| 0 <= j < |name| && name[j] == '_';
    assert forall k :: 0 <= k < |ResponseGenericText| ==> ResponseGenericText[k] != '_';
    forall i | 0 <= i <= |ResponseGenericText| - |name| ensures !OccursAt(ResponseGenericText, name, i) {
      assert ResponseGenericText[i..i + |name|][j] == ResponseGenericText[i + j];
    }
  }

  lemma ResponseGenericInText()
    ensures Contains(ResponseGenericText, ResponseGeneric)
  {
    ContainsSelf(ResponseGeneric);
    ContainsSuffix("~", ResponseGeneric, ResponseGeneric);
  }

  /**
   * A method returning the response placeholder returns the bound response
   * model, or `typing.Any` when the controller binds none.
   */
  lemma SynthesizedResponseReturn(d: MethodDescriptor, current: string, models: Option<DataModels>)
    requires SynthesizeMethod(d, current, models).Some?
    requires d.returnHint.Some? && d.returnHint.value.name == ResponseGeneric
    ensures models.None? ==> SynthesizeMethod(d, current, models).value.returnType == Some(Name(AnyModel))
    ensures models.Some? && models.value.responseModel != "" && models.value.responseModel != NestedManagerName ==>
              SynthesizeMethod(d, current, models).value.returnType == Some(Name(models.value.responseModel))
  {
    ResponseGenericInText();
    var hint := HintOrAny(d.returnHint);
    assert hint.name == ResponseGeneric;
    assert ReturnText(hint, models)
           == if models.Some? then (models.value.responseModel, models.value.responseModel != "") else (AnyModel, true);
  }

  /** A method returning the nested manager returns `<current>.RequestManager`. */
  lemma SynthesizedManagerReturn(d: MethodDescriptor, current: string, models: Option<DataModels>)
    requires SynthesizeMethod(d, current, models).Some?
    requires d.returnHint == Some(ReturnHint(NestedManagerName, NestedManagerName))
    ensures SynthesizeMethod(d, current, models).value.returnType == Some(Name(current + ".RequestManager"))
  {
    assert NestedManagerName[0] == '_';
    UnderscoreNotInResponseGeneric(NestedManagerName);
    assert ReturnText(HintOrAny(d.returnHint), models) == (NestedManagerName, true);
    ManagerRefSpelled(current);
  }

  /** The methods compiled for the whole `__dict__`, in its order. */
  function SynthesizedMethods(ds: seq<MethodDescriptor>, current: string, models: Option<DataModels>): seq<Stmt>
    decreases |ds|
  {
    if ds == [] then []
    else
      var prev := SynthesizedMethods(ds[..|ds| - 1], current, models);
      match SynthesizeMethod(ds[|ds| - 1], current, models)
      case Some(f) => prev + [f]
      case None => prev
  }

  /** `f` is what entry `d` compiles to: a function of the entry's own, non-dunder name. */
  predicate CompiledFrom(d: MethodDescriptor, current: string, models: Option<DataModels>, f: Stmt) {
    SynthesizeMethod(d, current, models) == Some(f) && !StartsWith(d.name, "__") && f.FunctionDef? && f.name == d.name
  }

  lemma CompiledFromEntry(d: MethodDescriptor, current: string, models: Option<DataModels>)
    ensures SynthesizeMethod(d, current, models).Some? ==> CompiledFrom(d, current, models, SynthesizeMethod(d, current, models).value)
  {
    SynthesizeMethodSpec(d, current, models);
  }

  /** The entry a compiled method comes from. */
  lemma {:induction false} SynthesizedMethodSource(ds: seq<MethodDescriptor>, current: string, models: Option<DataModels>, f: Stmt)
    returns (k: nat)
    requires f in SynthesizedMethods(ds, current, models)
    ensures k < |ds| && CompiledFrom(ds[k], current, models, f)
    decreases |ds|
  {
    var n := |ds|;
    var init := ds[..n - 1];
    var prev := SynthesizedMethods(init, current, models);
    var last := SynthesizeMethod(ds[n - 1], current, models);
    assert SynthesizedMethods(ds, current, models) == if last.Some? then prev + [last.value] else prev;
    if f in prev {
      k := SynthesizedMethodSource(init, current, models, f);
      assert init[k] == ds[k];
    } else {
      k := n - 1;
      CompiledFromEntry(ds[k], current, models);
    }
  }

  /** Every compiled method comes from an entry of the same name, and every dunder is skipped. */
  lemma SynthesizedMethodsFrom(ds: seq<MethodDescriptor>, current: string, models: Option<DataModels>)
    ensures forall f :: f in SynthesizedMethods(ds, current, models) ==>
              exists k :: 0 <= k < |ds| && CompiledFrom(ds[k], current, models, f)
  {
    forall f | f in SynthesizedMethods(ds, current, models)
      ensures exists k :: 0 <= k < |ds| && CompiledFrom(ds[k], current, models, f)
    {
      var k := SynthesizedMethodSource(ds, current, models, f);
    }
  }

  /** The `RequestManager` class and its accessor, appended to a controller body. */
  function ManagerClassAndAccessor(cls: string, body: seq<Stmt>): seq<Stmt> {
    [ClassDef(ManagerName, [Attribute(Name(cls), NestedManagerName)], [], body),
     AnnAssign(Name(RequestParamName), Name(ManagerRef(cls)), None)]
  }

  // ---------------------------------------------------------------------
  // Termination measure: nested `Operations` classes.

  function OpsCount(s: Stmt): nat {
    match s
    case ClassDef(name, _, _, body) => (if name == OperationsClassName then 1 else 0) + BodyOps(body)
    case FunctionDef(_, _, _, _, body, _) => BodyOps(body)
    case _ => 0
  }

  function BodyOps(ss: seq<Stmt>): nat {
    if ss == [] then 0 else OpsCount(ss[0]) + BodyOps(ss[1..])
  }

  lemma {:induction false} BodyOpsAppend(a: seq<Stmt>, b: seq<Stmt>)
    ensures BodyOps(a + b) == BodyOps(a) + BodyOps(b)
  {
    if a != [] {
      assert (a + b)[1..] == a[1..] + b;
      BodyOpsAppend(a[1..], b);
    } else {
      assert a + b == b;
    }
  }

  lemma BodyOpsSnoc(ss: seq<Stmt>, s: Stmt)
    ensures BodyOps(ss + [s]) == BodyOps(ss) + OpsCount(s)
  {
    BodyOpsAppend(ss, [s]);
    assert [s][1..] == [];
  }

  lemma {:induction false} BodyOpsBound(ss: seq<Stmt>, k: nat)
    requires k < |ss|
    ensures OpsCount(ss[k]) <= BodyOps(ss)
  {
    if k > 0 {
      BodyOpsBound(ss[1..], k - 1);
    }
  }

  lemma StripOperationOps(current: string, s: Stmt)
    ensures OpsCount(StripOperation(current, s)) <= OpsCount(s)
  {
    if s.FunctionDef? {
      var d := DocExpr(CleanedDocstring(s.body));
      if s.body != [] {
        var nb := [d] + s.body[1..];
        assert StripOperation(current, s).body == nb;
        assert nb[1..] == s.body[1..];
        assert BodyOps(nb) == OpsCount(d) + BodyOps(s.body[1..]);
        assert BodyOps(s.body) == OpsCount(s.body[0]) + BodyOps(s.body[1..]);
      } else {
        assert [d][1..] == [];
      }
    }
  }

  lemma {:induction false} StripOperationsOps(current: string, body: seq<Stmt>)
    ensures BodyOps(StripOperations(current, body)) <= BodyOps(body)
    decreases |body|
  {
    if body != [] {
      var n := |body|;
      StripOperationsOps(current, body[..n - 1]);
      StripOperationOps(current, body[n - 1]);
      BodyOpsSnoc(StripOperations(current, body[..n - 1]), StripOperation(current, body[n - 1]));
      BodyOpsSnoc(body[..n - 1], body[n - 1]);
      assert body[..n - 1] + [body[n - 1]] == body;
    }
  }

  lemma {:induction false} SynthesizedMethodsOps(ds: seq<MethodDescriptor>, current: string, models: Option<DataModels>)
    ensures BodyOps(SynthesizedMethods(ds, current, models)) == 0
    decreases |ds|
  {
    if ds != [] {
      var n := |ds|;
      SynthesizedMethodsOps(ds[..n - 1], current, models);
      var prev := SynthesizedMethods(ds[..n - 1], current, models);
      match SynthesizeMethod(ds[n - 1], current, models)
      case Some(f) =>
        BodyOpsSnoc(prev, f);
        SynthesizeMethodSpec(ds[n - 1], current, models);
        assert BodyOps(f.body) == 0;
      case None =>
    }
  }

  // ---------------------------------------------------------------------
  // visit_ClassDef

  predicate IsOperations(s: Stmt) {
    s.ClassDef? && s.name == OperationsClassName
  }

  /** The first loop over the body: everything but `Operations`, and the body of the last `Operations`. */
  function SplitOperations(body: seq<Stmt>): (r: (seq<Stmt>, Option<seq<Stmt>>))
    decreases |body|
  {
    if body == [] then ([], None)
    else
      var prev := SplitOperations(body[..|body| - 1]);
      var s := body[|body| - 1];
      if IsOperations(s) then (prev.0, Some(s.body)) else (prev.0 + [s], prev.1)
  }

  /** The kept statements are exactly the non-`Operations` ones; with no `Operations` nothing is dropped. */
  lemma {:induction false} SplitOperationsKept(body: seq<Stmt>)
    ensures var (rest, ops) := SplitOperations(body);
            (forall k :: 0 <= k < |rest| ==> !IsOperations(rest[k]))
            && (forall s :: s in rest <==> s in body && !IsOperations(s))
            && (ops.None? ==> rest == body)
    decreases |body|
  {
    if body != [] {
      var n := |body|;
      var init := body[..n - 1];
      var last := body[n - 1];
      SplitOperationsKept(init);
      assert body == init + [last];
      var (prest, pops) := SplitOperations(init);
      assert SplitOperations(body) == if IsOperations(last) then (prest, Some(last.body)) else (prest + [last], pops);
    }
  }

  /** An `Operations` body is reported iff one is present, and it is the last one's. */
  lemma {:induction false} SplitOperationsLast(body: seq<Stmt>)
    ensures var ops := SplitOperations(body).1;
            (ops.None? <==> forall k :: 0 <= k < |body| ==> !IsOperations(body[k]))
            && (ops.Some? ==> exists k :: 0 <= k < |body| && IsOperations(body[k]) && body[k].body == ops.value
                                          && forall j :: k < j < |body| ==> !IsOperations(body[j]))
    decreases |body|
  {
    if body != [] {
      var n := |body|;
      var init := body[..n - 1];
      var last := body[n - 1];
      SplitOperationsLast(init);
      assert forall k :: 0 <= k < n - 1 ==> init[k] == body[k];
      var pops := SplitOperations(init).1;
      assert SplitOperations(body).1 == if IsOperations(last) then Some(last.body) else pops;
      if !IsOperations(last) && pops.Some? {
        var k :| 0 <= k < n - 1 && IsOperations(init[k]) && init[k].body == pops.value
                 && forall j :: k < j < n - 1 ==> !IsOperations(init[j]);
        assert IsOperations(body[k]);
      }
    }
  }

  /**
   * The kept statements are exactly the non-`Operations` ones, in order; an
   * `Operations` body is reported iff one is present, and it is the last
   * one's.
   */
  lemma SplitOperationsSpec(body: seq<Stmt>)
    ensures var (rest, ops) := SplitOperations(body);
            (forall k :: 0 <= k < |rest| ==> !IsOperations(rest[k]))
            && (forall s :: s in rest <==> s in body && !IsOperations(s))
            && (ops.None? <==> forall k :: 0 <= k < |body| ==> !IsOperations(body[k]))
            && (ops.None? ==> rest == body)
            && (ops.Some? ==> exists k :: 0 <= k < |body| && IsOperations(body[k]) && body[k].body == ops.value
                                          && forall j :: k < j < |body| ==> !IsOperations(body[j]))
  {
    SplitOperationsKept(body);
    SplitOperationsLast(body);
  }

  /** What the split removes is counted by the measure. */
  lemma {:induction false} SplitOperationsMeasure(body: seq<Stmt>)
    ensures var (rest, ops) := SplitOperations(body);
            BodyOps(rest) + (if ops.Some? then 1 + BodyOps(ops.value) else 0) <= BodyOps(body)
            && (ops.None? ==> rest == body)
    decreases |body|
  {
    if body != [] {
      var n := |body|;
      var init := body[..n - 1];
      SplitOperationsMeasure(init);
      BodyOpsSnoc(init, body[n - 1]);
      assert init + [body[n - 1]] == body;
      var prev := SplitOperations(init);
      if !IsOperations(body[n - 1]) {
        BodyOpsSnoc(prev.0, body[n - 1]);
      }
    }
  }

  /** `request_maker_body` statements followed by the compiled passthrough methods. */
  function ManagerBody(rm: seq<Stmt>, ds: seq<MethodDescriptor>, current: string, models: Option<DataModels>): seq<Stmt> {
    rm + SynthesizedMethods(ds, current, models)
  }

  /** `data_models`: the bindings of the first plain-name base that has any. */
  function BaseModels(generics: Dict<DataModels>, bases: seq<Expr>): Option<DataModels> {
    if bases == [] then None
    else if bases[0].Name? && bases[0].id in Keys(generics) then Get(generics, bases[0].id)
    else BaseModels(generics, bases[1..])
  }

  /** The models found belong to a plain-name base, and no earlier plain-name base has bindings. */
  lemma {:induction false} BaseModelsSpec(generics: Dict<DataModels>, bases: seq<Expr>)
    ensures BaseModels(generics, bases).Some? <==>
              exists k :: 0 <= k < |bases| && bases[k].Name? && bases[k].id in Keys(generics)
    ensures BaseModels(generics, bases).Some? ==>
              exists k :: 0 <= k < |bases| && bases[k].Name? && Get(generics, bases[k].id) == BaseModels(generics, bases)
                          && forall j :: 0 <= j < k ==> !(bases[j].Name? && bases[j].id in Keys(generics))
  {
    if bases != [] && !(bases[0].Name? && bases[0].id in Keys(generics)) {
      BaseModelsSpec(generics, bases[1..]);
      forall k | 0 <= k < |bases| - 1 ensures bases[1..][k] == bases[k + 1] {}
      if BaseModels(generics, bases).Some? {
        var k :| 0 <= k < |bases[1..]| && bases[1..][k].Name? && Get(generics, bases[1..][k].id) == BaseModels(generics, bases)
                 && forall j :: 0 <= j < k ==> !(bases[1..][j].Name? && bases[1..][j].id in Keys(generics));
        assert bases[k + 1] == bases[1..][k];
        forall j | 0 <= j < k + 1 ensures !(bases[j].Name? && bases[j].id in Keys(generics)) {
          if j > 0 {
            assert bases[j] == bases[1..][j - 1];
          }
        }
      }
      if exists k :: 0 <= k < |bases| && bases[k].Name? && bases[k].id in Keys(generics) {
        var k :| 0 <= k < |bases| && bases[k].Name? && bases[k].id in Keys(generics);
        assert bases[1..][k - 1] == bases[k];
      }
    }
  }

  predicate IsControllerBase(b: Expr) {
    (b.Name? && b.id == ControllerClassName) || (b.Attribute? && b.attr == ControllerClassName)
  }

  predicate IsControllerSubclass(bases: seq<Expr>) {
    exists k :: 0 <= k < |bases| && IsControllerBase(bases[k])
  }

  /** The rewriter's fields as the visitor threads them. */
  datatype RewriterState = RewriterState(generics: Dict<DataModels>, current: string, isCurrentController: bool,
                                         modified: bool)

  /** What steers the walk without being changed by it. */
  datatype Config = Config(exclude: set<string>, descriptors: seq<MethodDescriptor>)

  /** A visit either returns a value or raises, in both cases leaving a state behind. */
  datatype Outcome<T> = Visited(st: RewriterState, value: T) | Raised(st: RewriterState, error: string)

  /** The type-parameter bindings recorded at the top of `visit_ClassDef`; unpacking other than two raises. */
  function RecordTypeParams(st: RewriterState, name: string, typeParams: seq<string>): Result<RewriterState, string> {
    if |typeParams| > 0 && name != ControllerClassName then
      if |typeParams| != 2 then Failure("ValueError: expected two type parameters")
      else Success(st.(generics := Put(st.generics, name, DataModels(typeParams[0], typeParams[1]))))
    else Success(st)
  }

  /** The controller-subclass step: binding its models and making it the current controller. */
  function BindController(st: RewriterState, name: string, bases: seq<Expr>, body: seq<Stmt>): RewriterState {
    if IsControllerSubclass(bases) then
      RewriterState(Put(st.generics, name, ControllerModels(body)), name, true, st.modified)
    else st.(isCurrentController := false)
  }

  /** The body `visit_ClassDef` gives the class, given the state after `BindController`. */
  function ReshapedBody(cfg: Config, st: RewriterState, cls: string, bases: seq<Expr>, body: seq<Stmt>): seq<Stmt> {
    var (rest, ops) := SplitOperations(body);
    var rm := if ops.Some? then StripOperations(st.current, ops.value) else [];
    if rm != [] then
      rest + ManagerClassAndAccessor(cls, ManagerBody(rm, cfg.descriptors, st.current, BaseModels(st.generics, bases)))
    else rest
  }

  /**
   * `visit_ClassDef` up to its `generic_visit`: the state afterwards, the
   * new body, and whether the children are visited next (an excluded class
   * is returned as it is).
   */
  function ClassStep(cfg: Config, st: RewriterState, s: Stmt): Outcome<(seq<Stmt>, bool)>
    requires s.ClassDef?
  {
    match RecordTypeParams(st, s.name, s.typeParams)
    case Failure(e) => Raised(st, e)
    case Success(st1) =>
      if s.name in cfg.exclude then Visited(st1, (s.body, false))
      else
        var st2 := BindController(st1, s.name, s.bases, s.body);
        var st3 := if SplitOperations(s.body).1.Some? then st2.(modified := true) else st2;
        Visited(st3, (ReshapedBody(cfg, st2, s.name, s.bases, s.body), true))
  }

  /** The `RequestManager` class and its accessor hold exactly the `Operations` of the stripped statements. */
  lemma ManagerTailOps(cls: string, rm: seq<Stmt>, ds: seq<MethodDescriptor>, current: string, models: Option<DataModels>)
    ensures BodyOps(ManagerClassAndAccessor(cls, ManagerBody(rm, ds, current, models))) == BodyOps(rm)
  {
    var mb := ManagerBody(rm, ds, current, models);
    BodyOpsAppend(rm, SynthesizedMethods(ds, current, models));
    SynthesizedMethodsOps(ds, current, models);
    var tail := ManagerClassAndAccessor(cls, mb);
    assert ManagerName != OperationsClassName;
    assert OpsCount(tail[0]) == BodyOps(mb);
    assert tail[1..][1..] == [];
    assert BodyOps(tail[1..]) == OpsCount(tail[1]) + BodyOps(tail[1..][1..]);
    assert BodyOps(tail) == OpsCount(tail[0]) + BodyOps(tail[1..]);
  }

  /** Reshaping removes at least one `Operations` when there is one, and otherwise keeps the body. */
  lemma ReshapedBodyMeasure(cfg: Config, st: RewriterState, cls: string, bases: seq<Expr>, body: seq<Stmt>)
    ensures var r := ReshapedBody(cfg, st, cls, bases, body);
            (SplitOperations(body).1.Some? ==> BodyOps(r) < BodyOps(body))
            && (SplitOperations(body).1.None? ==> r == body)
  {
    var (rest, ops) := SplitOperations(body);
    SplitOperationsMeasure(body);
    if ops.Some? {
      var rm := StripOperations(st.current, ops.value);
      StripOperationsOps(st.current, ops.value);
      if rm != [] {
        var models := BaseModels(st.generics, bases);
        ManagerTailOps(cls, rm, cfg.descriptors, st.current, models);
        BodyOpsAppend(rest, ManagerClassAndAccessor(cls, ManagerBody(rm, cfg.descriptors, st.current, models)));
      }
    }
  }

  /** The reshaped body has fewer `Operations`, or as many and is smaller: the walk goes down. */
  lemma ClassStepMeasure(cfg: Config, st: RewriterState, s: Stmt)
    requires s.ClassDef? && ClassStep(cfg, st, s).Visited? && ClassStep(cfg, st, s).value.1
    ensures var body := ClassStep(cfg, st, s).value.0;
            BodyOps(body) < OpsCount(s) || (BodyOps(body) == OpsCount(s) && BodySize(body) < StmtSize(s))
  {
    var st1 := RecordTypeParams(st, s.name, s.typeParams).value;
    var st2 := BindController(st1, s.name, s.bases, s.body);
    assert ClassStep(cfg, st, s).value.0 == ReshapedBody(cfg, st2, s.name, s.bases, s.body);
    ReshapedBodyMeasure(cfg, st2, s.name, s.bases, s.body);
  }

  /** The whole visitor: `visit` on one statement. */
  function VisitStmt(cfg: Config, st: RewriterState, s: Stmt): Outcome<Stmt>
    decreases OpsCount(s), StmtSize(s), 0
  {
    match s
    case ClassDef(name, bases, typeParams, _) =>
      (match ClassStep(cfg, st, s)
       case Raised(st', e) => Raised(st', e)
       case Visited(st', step) =>
         if !step.1 then Visited(st', s)
         else
           ClassStepMeasure(cfg, st, s);
           match VisitBody(cfg, st', step.0)
           case Raised(st'', e) => Raised(st'', e)
           case Visited(st'', body) => Visited(st'', ClassDef(name, bases, typeParams, body)))
    case FunctionDef(name, isAsync, _, _, body, decorators) =>
      if StartsWith(name, "__") then Visited(st, s)
      else
        var f := RewriteSignature(st.generics, st.current, s);
        (match VisitBody(cfg, st, body)
         case Raised(st', e) => Raised(st', e)
         case Visited(st', body') => Visited(st', FunctionDef(name, isAsync, f.params, f.returnType, body', decorators)))
    case _ => Visited(st, s)
  }

  /** `generic_visit` over a list of statements, threading the state, first to last. */
  function VisitBody(cfg: Config, st: RewriterState, body: seq<Stmt>): Outcome<seq<Stmt>>
    decreases BodyOps(body), BodySize(body), 1
  {
    if body == [] then Visited(st, [])
    else
      var n := |body|;
      BodyOpsSnoc(body[..n - 1], body[n - 1]);
      BodyMeasuresSnoc(body[..n - 1], body[n - 1]);
      assert body[..n - 1] + [body[n - 1]] == body;
      match VisitBody(cfg, st, body[..n - 1])
      case Raised(st', e) => Raised(st', e)
      case Visited(st', init) =>
        match VisitStmt(cfg, st', body[n - 1])
        case Raised(st'', e) => Raised(st'', e)
        case Visited(st'', last) => Visited(st'', init + [last])
  }

  // ---------------------------------------------------------------------
  // What one visit does

  /** The step never clears `modified`, and sets it only when the body holds an `Operations` class. */
  lemma ClassStepModified(cfg: Config, st: RewriterState, s: Stmt)
    requires s.ClassDef?
    ensures var o := ClassStep(cfg, st, s);
            (st.modified ==> o.st.modified)
            && (BodyOps(s.body) == 0 ==> o.st.modified == st.modified && (o.Visited? ==> o.value.0 == s.body))
  {
    SplitOperationsMeasure(s.body);
    if RecordTypeParams(st, s.name, s.typeParams).Success? && s.name !in cfg.exclude {
      var st1 := RecordTypeParams(st, s.name, s.typeParams).value;
      ReshapedBodyMeasure(cfg, BindController(st1, s.name, s.bases, s.body), s.name, s.bases, s.body);
    }
  }

  /**
   * A visit never clears `modified`, and a tree without any `Operations`
   * class leaves it as it was.
   */
  lemma {:induction false} VisitStmtModified(cfg: Config, st: RewriterState, s: Stmt)
    ensures st.modified ==> VisitStmt(cfg, st, s).st.modified
    ensures OpsCount(s) == 0 ==> VisitStmt(cfg, st, s).st.modified == st.modified
    decreases OpsCount(s), StmtSize(s), 0
  {
    match s
    case ClassDef(_, _, _, _) =>
      ClassStepModified(cfg, st, s);
      var o := ClassStep(cfg, st, s);
      if o.Visited? && o.value.1 {
        ClassStepMeasure(cfg, st, s);
        VisitBodyModified(cfg, o.st, o.value.0);
      }
    case FunctionDef(_, _, _, _, body, _) =>
      if !StartsWith(s.name, "__") {
        VisitBodyModified(cfg, st, body);
      }
    case _ =>
  }

  lemma {:induction false} VisitBodyModified(cfg: Config, st: RewriterState, body: seq<Stmt>)
    ensures st.modified ==> VisitBody(cfg, st, body).st.modified
    ensures BodyOps(body) == 0 ==> VisitBody(cfg, st, body).st.modified == st.modified
    decreases BodyOps(body), BodySize(body), 1
  {
    if body != [] {
      var n := |body|;
      BodyOpsSnoc(body[..n - 1], body[n - 1]);
      BodyMeasuresSnoc(body[..n - 1], body[n - 1]);
      assert body[..n - 1] + [body[n - 1]] == body;
      VisitBodyModified(cfg, st, body[..n - 1]);
      var o := VisitBody(cfg, st, body[..n - 1]);
      if o.Visited? {
        VisitStmtModified(cfg, o.st, body[n - 1]);
      }
    }
  }

  /** A visited statement keeps its kind and name; statements other than classes and functions are untouched. */
  predicate SameKind(a: Stmt, b: Stmt) {
    (a.ClassDef? ==> b.ClassDef? && b.name == a.name)
    && (a.FunctionDef? ==> b.FunctionDef? && b.name == a.name)
    && (!a.ClassDef? && !a.FunctionDef? ==> b == a)
  }

  lemma {:induction false} VisitBodyKinds(cfg: Config, st: RewriterState, body: seq<Stmt>)
    ensures VisitBody(cfg, st, body).Visited? ==>
              |VisitBody(cfg, st, body).value| == |body|
              && forall k :: 0 <= k < |body| ==> SameKind(body[k], VisitBody(cfg, st, body).value[k])
    decreases |body|
  {
    if body != [] {
      var n := |body|;
      VisitBodyKinds(cfg, st, body[..n - 1]);
    }
  }

  /**
   * `ast.parse` never yields an empty body, so an `Operations` class always
   * turns into a `RequestManager`.
   */
  predicate OperationsNonEmpty(body: seq<Stmt>) {
    forall k :: 0 <= k < |body| && IsOperations(body[k]) ==> body[k].body != []
  }

  /**
   * The reshaped body: no `Operations` class is left. Without one the body
   * is unchanged; with one, the other statements keep their order and are
   * followed by exactly two statements, `class RequestManager(<Cls>._RequestManager)`
   * holding the stripped `Operations` methods and then the passthrough
   * methods, and `request: <Cls>.RequestManager`.
   */
  lemma ReshapedBodySpec(cfg: Config, st: RewriterState, cls: string, bases: seq<Expr>, body: seq<Stmt>)
    requires OperationsNonEmpty(body)
    ensures var r := ReshapedBody(cfg, st, cls, bases, body);
            var (rest, ops) := SplitOperations(body);
            (forall k :: 0 <= k < |r| ==> !IsOperations(r[k]))
            && (ops.None? ==> r == body)
            && (ops.Some? ==>
                  var rm := StripOperations(st.current, ops.value);
                  |r| == |rest| + 2 && r[..|rest|] == rest
                  && r[|rest|] == ClassDef(ManagerName, [Attribute(Name(cls), NestedManagerName)], [],
                                           rm + SynthesizedMethods(cfg.descriptors, st.current, BaseModels(st.generics, bases)))
                  && r[|rest| + 1] == AnnAssign(Name(RequestParamName), Name(cls + ".RequestManager"), None))
  {
    var (rest, ops) := SplitOperations(body);
    SplitOperationsSpec(body);
    ManagerRefSpelled(cls);
    if ops.Some? {
      var k :| 0 <= k < |body| && IsOperations(body[k]) && body[k].body == ops.value;
      assert ops.value != [];
      var rm := StripOperations(st.current, ops.value);
      assert rm != [];
      var r := ReshapedBody(cfg, st, cls, bases, body);
      assert r[..|rest|] == rest;
    }
  }

  /** After a visit, a class that is not excluded holds no class named `Operations`. */
  lemma VisitedClassHasNoOperations(cfg: Config, st: RewriterState, s: Stmt)
    requires s.ClassDef? && s.name !in cfg.exclude && OperationsNonEmpty(s.body)
    requires VisitStmt(cfg, st, s).Visited?
    ensures var r := VisitStmt(cfg, st, s).value;
            r.ClassDef? && r.name == s.name && forall k :: 0 <= k < |r.body| ==> !IsOperations(r.body[k])
  {
    var st1 := RecordTypeParams(st, s.name, s.typeParams).value;
    var st2 := BindController(st1, s.name, s.bases, s.body);
    ReshapedBodySpec(cfg, st2, s.name, s.bases, s.body);
    var o := ClassStep(cfg, st, s);
    VisitBodyKinds(cfg, o.st, o.value.0);
  }

  /** The step sets `modified` exactly when the body holds an `Operations` class. */
  lemma ClassStepSetsModified(cfg: Config, st: RewriterState, s: Stmt)
    requires s.ClassDef? && s.name !in cfg.exclude && ClassStep(cfg, st, s).Visited?
    ensures ClassStep(cfg, st, s).st.modified
            == (st.modified || exists k :: 0 <= k < |s.body| && IsOperations(s.body[k]))
  {
    SplitOperationsSpec(s.body);
  }

  /**
   * An excluded class is returned as it is and its children are not
   * visited, but its type-parameter pair is recorded first.
   */
  lemma ExcludedClassUnchanged(cfg: Config, st: RewriterState, s: Stmt)
    requires s.ClassDef? && s.name in cfg.exclude
    requires |s.typeParams| == 0 || |s.typeParams| == 2 || s.name == ControllerClassName
    ensures VisitStmt(cfg, st, s).Visited? && VisitStmt(cfg, st, s).value == s
    ensures var g := VisitStmt(cfg, st, s).st.generics;
            |s.typeParams| == 2 && s.name != ControllerClassName ==>
              Get(g, s.name) == Some(DataModels(s.typeParams[0], s.typeParams[1]))
    ensures var after := VisitStmt(cfg, st, s).st;
            after.current == st.current && after.modified == st.modified
  {
    if |s.typeParams| == 2 && s.name != ControllerClassName {
      PutGet(st.generics, s.name, DataModels(s.typeParams[0], s.typeParams[1]), s.name);
    }
  }

  /** A class with one type parameter, or more than two, raises and changes nothing. */
  lemma TypeParamsMismatchRaises(cfg: Config, st: RewriterState, s: Stmt)
    requires s.ClassDef? && s.name != ControllerClassName && |s.typeParams| > 0 && |s.typeParams| != 2
    ensures VisitStmt(cfg, st, s).Raised? && VisitStmt(cfg, st, s).st == st
  {
  }

  /**
   * A direct controller subclass becomes the current controller and has its
   * models bound from its own assignments before its children are visited.
   */
  lemma ControllerSubclassBinds(cfg: Config, st: RewriterState, s: Stmt)
    requires s.ClassDef? && s.name !in cfg.exclude && IsControllerSubclass(s.bases)
    requires ClassStep(cfg, st, s).Visited?
    ensures var after := ClassStep(cfg, st, s).st;
            after.current == s.name && after.isCurrentController
            && Get(after.generics, s.name) == Some(ControllerModels(s.body))
  {
    var st1 := RecordTypeParams(st, s.name, s.typeParams).value;
    PutGet(st1.generics, s.name, ControllerModels(s.body), s.name);
  }

  /** A dunder function is returned as it is, without visiting its body. */
  lemma VisitDunderUntouched(cfg: Config, st: RewriterState, s: Stmt)
    requires s.FunctionDef? && StartsWith(s.name, "__")
    ensures VisitStmt(cfg, st, s) == Visited(st, s)
  {
  }

  // ---------------------------------------------------------------------
  // run_rewrites

  /** A stub file: whether it exists, its text, and what `ast.parse` makes of it (`None` for a `SyntaxError`). */
  datatype StubFile = StubFile(present: bool, content: string, tree: Option<Module>)

  datatype RunOutcome =
    | TypeErrorRaised
    | VisitRaised
    | Untouched
    | Written(text: string)

  /** The import lines to inject: the given ones (the defaults when none are given) not already in the text. */
  function InjectedImports(candidates: seq<string>, content: string): seq<string>
    decreases |candidates|
  {
    if candidates == [] then []
    else
      var prev := InjectedImports(candidates[..|candidates| - 1], content);
      var line := candidates[|candidates| - 1];
      if Contains(content, line) then prev else prev + [line]
  }

  /** Exactly the candidates absent from the text are injected, in their order. */
  lemma {:induction false} InjectedImportsSpec(candidates: seq<string>, content: string)
    ensures forall i :: i in InjectedImports(candidates, content) <==> i in candidates && !Contains(content, i)
    decreases |candidates|
  {
    if candidates != [] {
      InjectedImportsSpec(candidates[..|candidates| - 1], content);
      assert candidates == candidates[..|candidates| - 1] + [candidates[|candidates| - 1]];
    }
  }

  function ImportCandidates(additional: seq<string>): seq<string> {
    if additional == [] then DefaultImports else additional
  }

  /**
   * `run_rewrites` once the argument types are checked: nothing happens to a
   * missing or unparsable file; otherwise the current controller is reset,
   * the module is visited, and the text is written when `modified` is set
   * afterwards. The flag is the object's, carried over from earlier files.
   */
  function StubRun(ds: seq<MethodDescriptor>, st: RewriterState, exclude: set<string>, additional: seq<string>,
                   file: StubFile, unparse: Module -> string): (RunOutcome, RewriterState)
  {
    if !file.present || file.tree.None? then (Untouched, st)
    else match VisitBody(Config(exclude, ds), st.(current := ""), file.tree.value)
      case Raised(st', _) => (VisitRaised, st')
      case Visited(st', tree) =>
        if st'.modified then
          (Written(Join(InjectedImports(ImportCandidates(additional), file.content), "\n") + "\n" + unparse(tree)), st')
        else (Untouched, st')
  }

  /**
   * As written: once one earlier file held an `Operations` class, a later
   * file without any is still rewritten.
   */
  lemma StickyModifiedRewritesCleanFile(ds: seq<MethodDescriptor>, st: RewriterState, exclude: set<string>,
                                        additional: seq<string>, file: StubFile, unparse: Module -> string)
    requires st.modified && file.present && file.tree.Some? && BodyOps(file.tree.value) == 0
    requires VisitBody(Config(exclude, ds), st.(current := ""), file.tree.value).Visited?
    ensures StubRun(ds, st, exclude, additional, file, unparse).0.Written?
  {
    VisitBodyModified(Config(exclude, ds), st.(current := ""), file.tree.value);
  }

  /** The per-file decision as intended: `modified` starts out false for every file. */
  function CorrectedStubRun(ds: seq<MethodDescriptor>, st: RewriterState, exclude: set<string>, additional: seq<string>,
                            file: StubFile, unparse: Module -> string): (RunOutcome, RewriterState)
  {
    StubRun(ds, st.(modified := false), exclude, additional, file, unparse)
  }

  /** With the flag reset, a file is written only if it holds an `Operations` class. */
  lemma CorrectedRunWritesOnlyOperations(ds: seq<MethodDescriptor>, st: RewriterState, exclude: set<string>,
                                         additional: seq<string>, file: StubFile, unparse: Module -> string)
    ensures CorrectedStubRun(ds, st, exclude, additional, file, unparse).0.Written? ==>
              file.present && file.tree.Some? && BodyOps(file.tree.value) > 0
  {
    if file.present && file.tree.Some? {
      VisitBodyModified(Config(exclude, ds), st.(modified := false).(current := ""), file.tree.value);
    }
  }

  // ---------------------------------------------------------------------
  // Loops of the rewriter that read no field

  /** `[arg for arg in stmt.args.args if arg.arg != "request"]` */
  method KeepNonRequestArgs(args: seq<Arg>) returns (out: seq<Arg>)
    ensures out == WithoutRequestParams(args)
  {
    out := [];
    for i := 0 to |args|
      invariant out == WithoutRequestParams(args[..i])
    {
      if args[i].name != RequestParamName {
        out := out + [args[i]];
      }
      assert args[..i + 1][..i] == args[..i];
    }
    assert args[..|args|] == args;
  }

  /** The docstring lines kept by the generator in `remove_request_argument_from_methods`. */
  method KeepNonRequestLines(lines: seq<string>) returns (out: seq<string>)
    ensures out == DropRequestLines(lines)
  {
    out := [];
    for i := 0 to |lines|
      invariant out == DropRequestLines(lines[..i])
    {
      if !Contains(lines[i], RequestParamDoc) {
        out := out + [lines[i]];
      }
      assert lines[..i + 1][..i] == lines[..i];
    }
    assert lines[..|lines|] == lines;
  }

  /** The loop of `rewrite_function_parameters` over a parameter list. */
  method ReplaceArgAnnotations(args: seq<Arg>, mapping: map<string, string>) returns (out: seq<Arg>)
    ensures out == ReplaceArgsAnnotations(args, mapping)
  {
    out := [];
    for i := 0 to |args|
      invariant out == ReplaceArgsAnnotations(args[..i], mapping)
    {
      var arg := args[i];
      if arg.annotation.Some? {
        arg := Arg(arg.name, Some(ReplaceAnnotation(arg.annotation.value, mapping)));
      }
      out := out + [arg];
      assert args[..i + 1][..i] == args[..i];
    }
    assert args[..|args|] == args;
  }

  /** The `found_models` loop of `visit_ClassDef`. */
  method CollectModelAssignments(body: seq<Stmt>) returns (request: string, response: string)
    ensures request == FoundModel(body, RequestModelSlot) && response == FoundModel(body, ResponseModelSlot)
  {
    request, response := "", "";
    for i := 0 to |body|
      invariant request == FoundModel(body[..i], RequestModelSlot)
      invariant response == FoundModel(body[..i], ResponseModelSlot)
    {
      var stmt := body[i];
      if stmt.Assign? && |stmt.targets| == 1 && stmt.targets[0].Name? {
        var info := ModelAssignmentInfo(stmt);
        if info.Some? {
          var (assignee, assignment) := info.value;
          if assignee != "" && assignment != "" {
            if assignee == RequestModelSlot {
              request := assignment;
            } else {
              response := assignment;
            }
          }
        }
      }
      assert body[..i + 1][..i] == body[..i];
    }
    assert body[..|body|] == body;
  }

  /** A prefix that raises makes the whole body raise, leaving the same state. */
  lemma {:induction false} VisitBodyRaisedPrefix(cfg: Config, st: RewriterState, body: seq<Stmt>, i: nat)
    requires i <= |body| && VisitBody(cfg, st, body[..i]).Raised?
    ensures VisitBody(cfg, st, body) == VisitBody(cfg, st, body[..i])
    decreases |body| - i
  {
    if i < |body| {
      var n := |body|;
      assert body[..n - 1][..i] == body[..i];
      VisitBodyRaisedPrefix(cfg, st, body[..n - 1], i);
    } else {
      assert body[..i] == body;
    }
  }

  /** The rewriter object; `apply` keeps one per class, so its fields outlive a single file. */
  class RequestMakerRewriter {
    var generics: Dict<DataModels>
    var currentController: string
    var isCurrentController: bool
    var modified: bool
    var excludeClasses: set<string>
    /** The entries of `RequestManagerNestedClass.__dict__`, as reflection yields them. */
    const descriptors: seq<MethodDescriptor>

    constructor(descriptors: seq<MethodDescriptor>)
      ensures generics == [] && currentController == "" && !isCurrentController && !modified
      ensures excludeClasses == {} && this.descriptors == descriptors
    {
      generics := [];
      currentController := "";
      isCurrentController := false;
      modified := false;
      excludeClasses := {};
      this.descriptors := descriptors;
    }

    function State(): RewriterState
      reads this
    {
      RewriterState(generics, currentController, isCurrentController, modified)
    }

    function Settings(): Config
      reads this
    {
      Config(excludeClasses, descriptors)
    }

    method RemoveRequestArgumentFromMethods(body: seq<Stmt>) returns (newBody: seq<Stmt>)
      ensures newBody == StripOperations(currentController, body)
    {
      newBody := [];
      for i := 0 to |body|
        invariant newBody == StripOperations(currentController, body[..i])
      {
        var stmt := body[i];
        if stmt.FunctionDef? {
          var args := KeepNonRequestArgs(stmt.params.args);
          var text := match GetDocstring(stmt.body) case Some(d) => d case None => "";
          var kept := KeepNonRequestLines(SplitLines(text));
          var doc := IndentDocstring(Some(Join(kept, "\n")), 12);
          var stmtBody := ReplaceFirst(stmt.body, DocExpr(doc));
          stmt := FunctionDef(stmt.name, stmt.isAsync, Params(args, stmt.params.vararg, stmt.params.kwonly, stmt.params.kwarg),
                              Some(Name(ManagerRef(currentController))), stmtBody, stmt.decorators);
        }
        newBody := newBody + [stmt];
        assert body[..i + 1][..i] == body[..i];
      }
      assert body[..|body|] == body;
    }

    /** The `original_methods` loop: one compiled passthrough per usable reflected entry, in order. */
    method CompileOriginalMethods(dataModels: Option<DataModels>) returns (originals: seq<Stmt>)
      ensures originals == SynthesizedMethods(descriptors, currentController, dataModels)
    {
      originals := [];
      for i := 0 to |descriptors|
        invariant originals == SynthesizedMethods(descriptors[..i], currentController, dataModels)
      {
        var compiled := SynthesizeMethod(descriptors[i], currentController, dataModels);
        if compiled.Some? {
          originals := originals + [compiled.value];
        }
        assert descriptors[..i + 1][..i] == descriptors[..i];
      }
      assert descriptors[..|descriptors|] == descriptors;
    }

    method AddOriginalRequestManagerBody(body: seq<Stmt>, dataModels: Option<DataModels>) returns (newBody: seq<Stmt>)
      ensures newBody == ManagerBody(body, descriptors, currentController, dataModels)
    {
      var originals := CompileOriginalMethods(dataModels);
      newBody := AppendMethods(body, originals);
    }

    /** The closing loop: every compiled method is appended, since the name guard never matches a statement. */
    static method AppendMethods(body: seq<Stmt>, originals: seq<Stmt>) returns (newBody: seq<Stmt>)
      ensures newBody == body + originals
    {
      newBody := body;
      for j := 0 to |originals|
        invariant newBody == body + originals[..j]
      {
        assert originals[..j + 1] == originals[..j] + [originals[j]];
        newBody := newBody + [originals[j]];
      }
      assert originals[..|originals|] == originals;
    }

    /** The `data_models` loop: the first plain-name base with bindings. */
    method FindDataModels(bases: seq<Expr>) returns (dataModels: Option<DataModels>)
      ensures dataModels == BaseModels(generics, bases)
    {
      dataModels := None;
      var k := 0;
      while k < |bases|
        invariant k <= |bases|
        invariant BaseModels(generics, bases) == BaseModels(generics, bases[k..])
      {
        if bases[k].Name? && bases[k].id in Keys(generics) {
          dataModels := Get(generics, bases[k].id);
          return;
        }
        assert bases[k..][1..] == bases[k + 1..];
        k := k + 1;
      }
    }

    method RewriteFunctionParameters(node: Stmt) returns (ok: bool, r: Stmt)
      requires node.FunctionDef?
      modifies this
      ensures var o := VisitStmt(old(Settings()), old(State()), node);
              State() == o.st && ok == o.Visited? && (ok ==> r == o.value)
      ensures excludeClasses == old(excludeClasses)
      decreases OpsCount(node), StmtSize(node), 0
    {
      if StartsWith(node.name, "__") {
        return true, node;
      }
      var f := node;
      if currentController != "" {
        var models := Get(generics, currentController);
        if models.Some? {
          var mapping := PlaceholderMapping(models.value);
          var returnType := if node.returnType.Some? then Some(ReplaceAnnotation(node.returnType.value, mapping)) else None;
          var args := ReplaceArgAnnotations(node.params.args, mapping);
          var kwonly := ReplaceArgAnnotations(node.params.kwonly, mapping);
          f := FunctionDef(node.name, node.isAsync,
                           Params(args, ReplaceOptionalArg(node.params.vararg, mapping), kwonly,
                                  ReplaceOptionalArg(node.params.kwarg, mapping)),
                           returnType, node.body, node.decorators);
        }
      }
      assert f == RewriteSignature(generics, currentController, node);
      var body;
      ok, body := GenericVisit(node.body);
      r := FunctionDef(node.name, node.isAsync, f.params, f.returnType, body, node.decorators);
    }

    /** The `Operations` loop of `visit_ClassDef`. */
    method TakeOperations(body: seq<Stmt>) returns (controllerBody: seq<Stmt>, requestMakerBody: seq<Stmt>)
      modifies this
      ensures controllerBody == SplitOperations(body).0
      ensures requestMakerBody == if SplitOperations(body).1.Some?
                                  then StripOperations(currentController, SplitOperations(body).1.value) else []
      ensures modified == (old(modified) || SplitOperations(body).1.Some?)
      ensures generics == old(generics) && currentController == old(currentController)
      ensures isCurrentController == old(isCurrentController) && excludeClasses == old(excludeClasses)
    {
      requestMakerBody := [];
      controllerBody := [];
      for i := 0 to |body|
        invariant controllerBody == SplitOperations(body[..i]).0
        invariant requestMakerBody == if SplitOperations(body[..i]).1.Some?
                                      then StripOperations(currentController, SplitOperations(body[..i]).1.value) else []
        invariant modified == (old(modified) || SplitOperations(body[..i]).1.Some?)
        invariant generics == old(generics) && currentController == old(currentController)
        invariant isCurrentController == old(isCurrentController) && excludeClasses == old(excludeClasses)
      {
        var stmt := body[i];
        ghost var prev := SplitOperations(body[..i]);
        assert body[..i + 1][..i] == body[..i] && body[..i + 1][i] == stmt;
        assert SplitOperations(body[..i + 1]) ==
               if IsOperations(stmt) then (prev.0, Some(stmt.body)) else (prev.0 + [stmt], prev.1);
        if stmt.ClassDef? && stmt.name == OperationsClassName {
          requestMakerBody := RemoveRequestArgumentFromMethods(stmt.body);
          modified := true;
        } else {
          controllerBody := controllerBody + [stmt];
        }
      }
      assert body[..|body|] == body;
    }

    /** The type-parameter bindings at the top of `visit_ClassDef`; `false` when unpacking raises. */
    method RecordClassTypeParams(node: Stmt) returns (ok: bool)
      requires node.ClassDef?
      modifies this
      ensures var o := RecordTypeParams(old(State()), node.name, node.typeParams);
              ok == o.Success? && (ok ==> State() == o.value) && (!ok ==> State() == old(State()))
      ensures excludeClasses == old(excludeClasses)
    {
      if |node.typeParams| > 0 && node.name != ControllerClassName {
        if |node.typeParams| != 2 {
          return false;
        }
        generics := Put(generics, node.name, DataModels(node.typeParams[0], node.typeParams[1]));
      }
      return true;
    }

    /** The controller-subclass check and binding of `visit_ClassDef`. */
    method BindControllerClass(node: Stmt)
      requires node.ClassDef?
      modifies this
      ensures State() == BindController(old(State()), node.name, node.bases, node.body)
      ensures excludeClasses == old(excludeClasses)
    {
      var isController := IsControllerSubclass(node.bases);
      if isController {
        currentController := node.name;
        var request, response := CollectModelAssignments(node.body);
        generics := Put(generics, node.name, DataModels(OrAny(request), OrAny(response)));
      }
      isCurrentController := isController;
    }

    /** `visit_ClassDef` up to its `generic_visit`. */
    method ReshapeClass(node: Stmt) returns (ok: bool, recurse: bool, body: seq<Stmt>)
      requires node.ClassDef?
      modifies this
      ensures var o := ClassStep(old(Settings()), old(State()), node);
              State() == o.st && ok == o.Visited? && (ok ==> (body, recurse) == o.value)
      ensures excludeClasses == old(excludeClasses)
    {
      ghost var cfg := Settings();
      ok := RecordClassTypeParams(node);
      if !ok {
        return false, false, [];
      }
      if node.name in excludeClasses {
        return true, false, node.body;
      }
      BindControllerClass(node);
      ghost var st2 := State();
      var controllerBody, requestMakerBody := TakeOperations(node.body);
      var dataModels := FindDataModels(node.bases);
      if requestMakerBody != [] {
        var managerBody := AddOriginalRequestManagerBody(requestMakerBody, dataModels);
        controllerBody := controllerBody + ManagerClassAndAccessor(node.name, managerBody);
      }
      assert controllerBody == ReshapedBody(cfg, st2, node.name, node.bases, node.body);
      return true, true, controllerBody;
    }

    method VisitClassDef(node: Stmt) returns (ok: bool, r: Stmt)
      requires node.ClassDef?
      modifies this
      ensures var o := VisitStmt(old(Settings()), old(State()), node);
              State() == o.st && ok == o.Visited? && (ok ==> r == o.value)
      ensures excludeClasses == old(excludeClasses)
      decreases OpsCount(node), StmtSize(node), 0
    {
      ghost var cfg := Settings();
      ghost var st0 := State();
      var recurse, body;
      ok, recurse, body := ReshapeClass(node);
      if !ok {
        return false, node;
      }
      if !recurse {
        return true, node;
      }
      ClassStepMeasure(cfg, st0, node);
      var visited;
      ok, visited := GenericVisit(body);
      r := ClassDef(node.name, node.bases, node.typeParams, visited);
    }

    /** `visit`: the two rewriting visitors, and `generic_visit` for every other statement. */
    method Visit(s: Stmt) returns (ok: bool, r: Stmt)
      modifies this
      ensures var o := VisitStmt(old(Settings()), old(State()), s);
              State() == o.st && ok == o.Visited? && (ok ==> r == o.value)
      ensures excludeClasses == old(excludeClasses)
      decreases OpsCount(s), StmtSize(s), 1
    {
      if s.ClassDef? {
        ok, r := VisitClassDef(s);
      } else if s.FunctionDef? {
        ok, r := RewriteFunctionParameters(s);
      } else {
        ok, r := true, s;
      }
    }

    /** `generic_visit` over a list of statements; an exception stops the walk. */
    method GenericVisit(body: seq<Stmt>) returns (ok: bool, out: seq<Stmt>)
      modifies this
      ensures var o := VisitBody(old(Settings()), old(State()), body);
              State() == o.st && ok == o.Visited? && (ok ==> out == o.value)
      ensures excludeClasses == old(excludeClasses)
      decreases BodyOps(body), BodySize(body), 2
    {
      out := [];
      for i := 0 to |body|
        invariant VisitBody(old(Settings()), old(State()), body[..i]) == Visited(State(), out)
        invariant excludeClasses == old(excludeClasses)
      {
        BodyOpsBound(body, i);
        BodyMeasuresBound(body, i);
        ghost var before := State();
        var ok1, s1 := Visit(body[i]);
        assert body[..i + 1][..i] == body[..i];
        if !ok1 {
          VisitBodyRaisedPrefix(old(Settings()), old(State()), body, i + 1);
          return false, out;
        }
        out := out + [s1];
      }
      assert body[..|body|] == body;
      ok := true;
    }

    /**
     * `run_rewrites(exclude_classes=..., additional_imports=..., stub_path=...)`;
     * `None` for `exclude` is a value that is neither a list nor a set.
     */
    method RunRewrites(exclude: Option<set<string>>, additionalImports: seq<string>, file: StubFile,
                       unparse: Module -> string) returns (outcome: RunOutcome)
      modifies this
      ensures exclude.None? ==> outcome == TypeErrorRaised && State() == old(State())
                                && excludeClasses == old(excludeClasses)
      ensures exclude.Some? ==>
                excludeClasses == exclude.value
                && (outcome, State()) == StubRun(descriptors, old(State()), exclude.value, additionalImports, file, unparse)
    {
      if exclude.None? {
        return TypeErrorRaised;
      }
      excludeClasses := exclude.value;
      if !file.present || file.tree.None? {
        return Untouched;
      }
      currentController := "";
      var ok, tree := GenericVisit(file.tree.value);
      if !ok {
        return VisitRaised;
      }
      var candidates := if additionalImports == [] then DefaultImports else additionalImports;
      var imports := InjectedImports(candidates, file.content);
      if modified {
        return Written(Join(imports, "\n") + "\n" + unparse(tree));
      }
      return Untouched;
    }
  }
}
