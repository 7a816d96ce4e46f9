/**
 * The older stub rewriter (`make/compiler/rewrite.py`). For every class that
 * is not excluded it takes the last nested `Operations` class out of the
 * body, drops the `request` parameter of its plain functions, and appends a
 * `RequestManager` class holding those functions and the passthrough methods
 * compiled from `_RequestManager` by reflection, together with two
 * assignments. Unlike the newer rewriter it does not descend into a class it
 * has visited, and a fresh rewriter is made for every file.
 */
module LegacyRewriter {
  import opened Wrappers
  import opened Text
  import opened StubAst
  import opened OrderedMaps
  import opened StubTransformerBase
  import CR = ControllerRewriter

  /** The return annotation given to a passthrough method returning the nested manager. */
  const QuotedManagerName: string := "\"RequestManager\""
  const MissingHintError: string := "AttributeError: 'NoneType' object has no attribute '__name__'"

  // ---------------------------------------------------------------------
  // remove_request_argument_from_methods

  /**
   * One statement of the loop: a plain (not `async`) function loses its
   * `request` parameters. The docstring it computes is stored on an
   * attribute that `ast.unparse` never reads, so body and return annotation
   * stay as they are.
   */
  function StripOperation(s: Stmt): Stmt {
    if s.FunctionDef? && !s.isAsync then s.(params := s.params.(args := CR.WithoutRequestParams(s.params.args)))
    else s
  }

  function StripOperations(body: seq<Stmt>): (r: seq<Stmt>)
    ensures |r| == |body|
    decreases |body|
  {
    if body == [] then []
    else StripOperations(body[..|body| - 1]) + [StripOperation(body[|body| - 1])]
  }

  lemma {:induction false} StripOperationsAt(body: seq<Stmt>, k: nat)
    requires k < |body|
    ensures StripOperations(body)[k] == StripOperation(body[k])
    decreases |body|
  {
    if k < |body| - 1 {
      StripOperationsAt(body[..|body| - 1], k);
    }
  }

  /**
   * Anything but a plain function passes through; a plain function keeps its
   * name, return annotation, body, decorators and other parameter kinds, and
   * keeps exactly its positional parameters not named `request`. Stripping
   * twice strips nothing more.
   */
  lemma StripOperationSpec(s: Stmt)
    ensures var r := StripOperation(s);
            (!(s.FunctionDef? && !s.isAsync) ==> r == s)
            && (s.FunctionDef? && !s.isAsync ==>
                  r.FunctionDef? && !r.isAsync && r.name == s.name && r.returnType == s.returnType
                  && r.body == s.body && r.decorators == s.decorators
                  && r.params.vararg == s.params.vararg && r.params.kwonly == s.params.kwonly
                  && r.params.kwarg == s.params.kwarg
                  && (forall a :: a in r.params.args <==> a in s.params.args && a.name != CR.RequestParamName))
            && StripOperation(r) == r
  {
    if s.FunctionDef? && !s.isAsync {
      var r := StripOperation(s);
      CR.WithoutRequestParamsSpec(s.params.args);
      CR.WithoutRequestParamsNone(r.params.args);
    }
  }

  // ---------------------------------------------------------------------
  // add_original_request_manager_body

  /** A parameter as `inspect.getfullargspec` lists it, with the `__name__` of its type hint, if it has one. */
  datatype ArgSpec = ArgSpec(name: string, hintName: Option<string>)

  /**
   * One entry of `_RequestManager.__dict__`: its name, whether it is
   * callable, its `__doc__`, its positional parameters and its return hint
   * after the union step (`None` when it has none).
   */
  datatype MethodDescriptor = MethodDescriptor(name: string, isCallable: bool, doc: Option<string>,
                                               args: seq<ArgSpec>, returnHint: Option<CR.ReturnHint>)

  /** The parameters after a leading `self`. */
  function ArgsToAnalyze(specs: seq<ArgSpec>): seq<ArgSpec> {
    if |specs| > 0 && specs[0].name == "self" then specs[1..] else specs
  }

  /** `ast.arg(arg=name, annotation=Name(hint.__name__) if hint else None)` */
  function CompileArg(a: ArgSpec): Arg {
    Arg(a.name, if a.hintName.Some? then Some(Name(a.hintName.value)) else None)
  }

  function CompileArgs(specs: seq<ArgSpec>): (r: seq<Arg>)
    ensures |r| == |specs|
    decreases |specs|
  {
    if specs == [] then []
    else CompileArgs(specs[..|specs| - 1]) + [CompileArg(specs[|specs| - 1])]
  }

  /**
   * The compiled parameters follow the specification one for one: same
   * names, and an annotation naming the hint exactly when there is one.
   */
  lemma {:induction false} CompileArgsSpec(specs: seq<ArgSpec>)
    ensures forall k :: 0 <= k < |specs| ==>
              CompileArgs(specs)[k].name == specs[k].name
              && (CompileArgs(specs)[k].annotation.Some? <==> specs[k].hintName.Some?)
              && (specs[k].hintName.Some? ==> CompileArgs(specs)[k].annotation == Some(Name(specs[k].hintName.value)))
    decreases |specs|
  {
    if specs != [] {
      var n := |specs|;
      CompileArgsSpec(specs[..n - 1]);
      forall k | 0 <= k < n - 1 ensures CompileArgs(specs)[k] == CompileArgs(specs[..n - 1])[k] && specs[k] == specs[..n - 1][k] {}
    }
  }

  /** The nested manager's name becomes the quoted public name. */
  function Serialized(text: string): string {
    if text == CR.NestedManagerName then QuotedManagerName else text
  }

  /** An entry that is compiled but has no return hint: `None.__name__` raises. */
  predicate RaisesOnEntry(d: MethodDescriptor) {
    !StartsWith(d.name, "__") && d.isCallable && d.returnHint.None?
  }

  /** The passthrough method compiled for one entry: `None` for a skipped entry, a failure when the hint is missing. */
  function SynthesizeMethod(d: MethodDescriptor, models: Option<CR.DataModels>): Result<Option<Stmt>, string> {
    if StartsWith(d.name, "__") || !d.isCallable then Success(None)
    else if d.returnHint.None? then Failure(MissingHintError)
    else
      var (text, present) := CR.ReturnText(d.returnHint.value, models);
      var doc := LegacyIndentDocstring(d.doc);
      Success(Some(FunctionDef(d.name, false, Params([Arg("self", None)] + CompileArgs(ArgsToAnalyze(d.args)), None, [], None),
                               if present then Some(Name(Serialized(text))) else None,
                               [if doc == "" then Pass else DocExpr(doc)], [])))
  }

  /**
   * Dunders and non-callables are skipped and a missing return hint raises;
   * otherwise the method is a plain function of the entry's name taking a
   * fresh `self` followed by the entry's parameters after its own `self`,
   * with no decorator and a body that is one `pass` or docstring.
   */
  lemma SynthesizeMethodSpec(d: MethodDescriptor, models: Option<CR.DataModels>)
    ensures SynthesizeMethod(d, models).Failure? <==> RaisesOnEntry(d)
    ensures StartsWith(d.name, "__") || !d.isCallable ==> SynthesizeMethod(d, models) == Success(None)
    ensures !StartsWith(d.name, "__") && d.isCallable && d.returnHint.Some? ==>
              SynthesizeMethod(d, models).Success? && SynthesizeMethod(d, models).value.Some?
              && var f := SynthesizeMethod(d, models).value.value;
                 f.FunctionDef? && f.name == d.name && !f.isAsync && f.decorators == []
                 && f.params.args == [Arg("self", None)] + CompileArgs(ArgsToAnalyze(d.args))
                 && f.params.vararg.None? && f.params.kwonly == [] && f.params.kwarg.None?
                 && |f.body| == 1 && CR.BodyOps(f.body) == 0
                 && |f.params.args| == 1 + |d.args| - (if |d.args| > 0 && d.args[0].name == "self" then 1 else 0)
  {
    if !StartsWith(d.name, "__") && d.isCallable && d.returnHint.Some? {
      var f := SynthesizeMethod(d, models).value.value;
      assert f.body[1..] == [];
      assert CR.BodyOps(f.body) == CR.OpsCount(f.body[0]) + CR.BodyOps(f.body[1..]);
    }
  }

  /**
   * A method returning the nested manager is annotated with the quoted
   * `"RequestManager"`; one returning the response placeholder is annotated
   * with the response model the controller's base binds, or `typing.Any`
   * with none bound.
   */
  lemma SynthesizedReturns(d: MethodDescriptor, models: Option<CR.DataModels>)
    requires !StartsWith(d.name, "__") && d.isCallable && d.returnHint.Some?
    ensures var h := d.returnHint.value;
            var f := SynthesizeMethod(d, models).value.value;
            (h.rendered == CR.NestedManagerName && !Contains(CR.ResponseGenericText, h.name) ==>
               f.returnType == Some(Name(QuotedManagerName)))
            && (Contains(CR.ResponseGenericText, h.name) && models.None? ==> f.returnType == Some(Name(CR.AnyModel)))
            && (Contains(CR.ResponseGenericText, h.name) && models.Some? && models.value.responseModel != "" ==>
                  f.returnType == Some(Name(Serialized(models.value.responseModel))))
            && (Contains(CR.ResponseGenericText, h.name) && models.Some? && models.value.responseModel == "" ==>
                  f.returnType.None?)
  {
    var h := d.returnHint.value;
    var f := SynthesizeMethod(d, models).value.value;
    if Contains(CR.ResponseGenericText, h.name) && models.None? {
      assert CR.ReturnText(h, models) == (CR.AnyModel, true);
      assert CR.AnyModel != CR.NestedManagerName by {
        assert CR.AnyModel[0] != CR.NestedManagerName[0];
      }
    }
  }

  /** The methods compiled for the whole `__dict__`, in its order; the first missing hint stops the loop. */
  function SynthesizedMethods(ds: seq<MethodDescriptor>, models: Option<CR.DataModels>): Result<seq<Stmt>, string>
    decreases |ds|
  {
    if ds == [] then Success([])
    else
      match SynthesizedMethods(ds[..|ds| - 1], models)
      case Failure(e) => Failure(e)
      case Success(prev) =>
        match SynthesizeMethod(ds[|ds| - 1], models)
        case Failure(e) => Failure(e)
        case Success(None) => Success(prev)
        case Success(Some(f)) => Success(prev + [f])
  }

  /** One step of the compile loop. */
  lemma SynthesizedMethodsStep(ds: seq<MethodDescriptor>, models: Option<CR.DataModels>)
    requires ds != []
    ensures SynthesizedMethods(ds, models) ==
              match SynthesizedMethods(ds[..|ds| - 1], models)
              case Failure(e) => Failure(e)
              case Success(prev) =>
                match SynthesizeMethod(ds[|ds| - 1], models)
                case Failure(e) => Failure(e)
                case Success(None) => Success(prev)
                case Success(Some(f)) => Success(prev + [f])
  {
  }

  /** Compilation raises exactly when some entry it compiles lacks a return hint. */
  lemma {:induction false} SynthesizedMethodsFails(ds: seq<MethodDescriptor>, models: Option<CR.DataModels>)
    ensures SynthesizedMethods(ds, models).Failure? <==> exists k :: 0 <= k < |ds| && RaisesOnEntry(ds[k])
    decreases |ds|
  {
    if ds != [] {
      var n := |ds|;
      var init := ds[..n - 1];
      SynthesizedMethodsFails(init, models);
      SynthesizedMethodsStep(ds, models);
      SynthesizeMethodSpec(ds[n - 1], models);
      assert forall k :: 0 <= k < n - 1 ==> init[k] == ds[k];
      if exists k :: 0 <= k < n && RaisesOnEntry(ds[k]) {
        var k :| 0 <= k < n && RaisesOnEntry(ds[k]);
        if k < n - 1 {
          assert RaisesOnEntry(init[k]);
        }
      }
    }
  }

  /** `m` is a plain function compiled from entry `d`: same name, callable, not a dunder. */
  predicate FromEntry(d: MethodDescriptor, m: Stmt) {
    m.FunctionDef? && m.decorators == [] && d.name == m.name && !StartsWith(d.name, "__") && d.isCallable
  }

  /** Every compiled method comes from an entry and holds no `Operations` class. */
  lemma {:induction false} SynthesizedMethodsFrom(ds: seq<MethodDescriptor>, models: Option<CR.DataModels>)
    ensures SynthesizedMethods(ds, models).Success? ==>
              var ms := SynthesizedMethods(ds, models).value;
              CR.BodyOps(ms) == 0 && forall j :: 0 <= j < |ms| ==> exists k :: 0 <= k < |ds| && FromEntry(ds[k], ms[j])
    decreases |ds|
  {
    if ds != [] {
      var n := |ds|;
      var init := ds[..n - 1];
      SynthesizedMethodsFrom(init, models);
      SynthesizedMethodsStep(ds, models);
      var o := SynthesizedMethods(init, models);
      if o.Success? {
        match SynthesizeMethod(ds[n - 1], models)
        case Failure(_) =>
        case Success(None) =>
          forall j | 0 <= j < |o.value| ensures exists k :: 0 <= k < n && FromEntry(ds[k], o.value[j]) {
            var k :| 0 <= k < n - 1 && FromEntry(init[k], o.value[j]);
            assert ds[k] == init[k];
          }
        case Success(Some(f)) =>
          SynthesizeMethodSpec(ds[n - 1], models);
          CR.BodyOpsSnoc(o.value, f);
          var ms := o.value + [f];
          forall j | 0 <= j < |ms| ensures exists k :: 0 <= k < n && FromEntry(ds[k], ms[j]) {
            if j < |o.value| {
              assert ms[j] == o.value[j];
              var k :| 0 <= k < n - 1 && FromEntry(init[k], o.value[j]);
              assert ds[k] == init[k];
            } else {
              assert FromEntry(ds[n - 1], ms[j]);
            }
          }
      }
    }
  }

  /**
   * Compilation raises exactly when some compiled entry lacks a return hint;
   * otherwise every method comes from a callable, non-dunder entry of the
   * same name and holds no `Operations` class.
   */
  lemma SynthesizedMethodsSpec(ds: seq<MethodDescriptor>, models: Option<CR.DataModels>)
    ensures SynthesizedMethods(ds, models).Failure? <==> exists k :: 0 <= k < |ds| && RaisesOnEntry(ds[k])
    ensures SynthesizedMethods(ds, models).Success? ==>
              var ms := SynthesizedMethods(ds, models).value;
              CR.BodyOps(ms) == 0
              && forall j :: 0 <= j < |ms| ==>
                   ms[j].FunctionDef? && ms[j].decorators == []
                   && exists k :: 0 <= k < |ds| && ds[k].name == ms[j].name && !StartsWith(ds[k].name, "__") && ds[k].isCallable
  {
    SynthesizedMethodsFails(ds, models);
    SynthesizedMethodsFrom(ds, models);
    if SynthesizedMethods(ds, models).Success? {
      var ms := SynthesizedMethods(ds, models).value;
      forall j | 0 <= j < |ms|
        ensures ms[j].FunctionDef? && ms[j].decorators == []
                && exists k :: 0 <= k < |ds| && ds[k].name == ms[j].name && !StartsWith(ds[k].name, "__") && ds[k].isCallable
      {
        var k :| 0 <= k < |ds| && FromEntry(ds[k], ms[j]);
      }
    }
  }

  // ---------------------------------------------------------------------
  // visit_ClassDef

  /**
   * What the class gains when its `Operations` body is not empty: the
   * `RequestManager` class over `<Cls>._RequestManager`, then
   * `_RequestManager = RequestManager` (the field default of
   * `REQUEST_MANAGER_CLASS` is the nested class, whose `__name__` this is),
   * then `request = RequestManager()`.
   */
  function ManagerStatements(cls: string, body: seq<Stmt>): seq<Stmt> {
    [ClassDef(CR.ManagerName, [Attribute(Name(cls), CR.NestedManagerName)], [], body),
     Assign([Name(CR.NestedManagerName)], Name(CR.ManagerName)),
     Assign([Name(CR.RequestParamName)], Call(Name(CR.ManagerName), []))]
  }

  /** The rewriter's fields as the visitor threads them. */
  datatype RewriterState = RewriterState(generics: Dict<CR.DataModels>, modified: bool)

  /** What steers the walk without being changed by it. */
  datatype Config = Config(exclude: set<string>, descriptors: seq<MethodDescriptor>)

  /** A visit either returns a value or raises, in both cases leaving a state behind. */
  datatype Outcome<T> = Visited(st: RewriterState, value: T) | Raised(st: RewriterState, error: string)

  /** The type-parameter pair recorded at the top of `visit_ClassDef`; unpacking other than two raises. */
  function RecordTypeParams(st: RewriterState, name: string, typeParams: seq<string>): Result<RewriterState, string> {
    if |typeParams| > 0 && name != CR.ControllerClassName then
      if |typeParams| != 2 then Failure("ValueError: expected two type parameters")
      else Success(st.(generics := Put(st.generics, name, CR.DataModels(typeParams[0], typeParams[1]))))
    else Success(st)
  }

  /** `visit_ClassDef`, which returns the class without visiting its children. */
  function ClassStep(cfg: Config, st: RewriterState, s: Stmt): Outcome<Stmt>
    requires s.ClassDef?
  {
    match RecordTypeParams(st, s.name, s.typeParams)
    case Failure(e) => Raised(st, e)
    case Success(st1) =>
      if s.name in cfg.exclude then Visited(st1, s)
      else
        var (rest, ops) := CR.SplitOperations(s.body);
        var st2 := st1.(modified := st1.modified || ops.Some?);
        var rm := if ops.Some? then StripOperations(ops.value) else [];
        if rm == [] then Visited(st2, ClassDef(s.name, s.bases, s.typeParams, rest))
        else
          match SynthesizedMethods(cfg.descriptors, CR.BaseModels(st2.generics, s.bases))
          case Failure(e) => Raised(st2, e)
          case Success(ms) => Visited(st2, ClassDef(s.name, s.bases, s.typeParams, rest + ManagerStatements(s.name, rm + ms)))
  }

  /** `visit` on one statement: classes are rewritten, functions have their bodies walked. */
  function VisitStmt(cfg: Config, st: RewriterState, s: Stmt): Outcome<Stmt>
    decreases StmtSize(s), 0
  {
    match s
    case ClassDef(_, _, _, _) => ClassStep(cfg, st, s)
    case FunctionDef(name, isAsync, params, returnType, body, decorators) =>
      (match VisitBody(cfg, st, body)
       case Raised(st', e) => Raised(st', e)
       case Visited(st', body') => Visited(st', FunctionDef(name, isAsync, params, returnType, body', decorators)))
    case _ => Visited(st, s)
  }

  /** `generic_visit` over a list of statements, threading the state, first to last. */
  function VisitBody(cfg: Config, st: RewriterState, body: seq<Stmt>): Outcome<seq<Stmt>>
    decreases BodySize(body), 1
  {
    if body == [] then Visited(st, [])
    else
      var n := |body|;
      BodyMeasuresSnoc(body[..n - 1], body[n - 1]);
      assert body[..n - 1] + [body[n - 1]] == body;
      match VisitBody(cfg, st, body[..n - 1])
      case Raised(st', e) => Raised(st', e)
      case Visited(st', init) =>
        match VisitStmt(cfg, st', body[n - 1])
        case Raised(st'', e) => Raised(st'', e)
        case Visited(st'', last) => Visited(st'', init + [last])
  }

  // ---------------------------------------------------------------------
  // What one visit does

  /**
   * The class step on a class that is not excluded: the other statements
   * stay verbatim and in order (nested classes are not visited), no
   * `Operations` class is left, `modified` is set exactly when there was
   * one, and a non-empty `Operations` body is followed by the three
   * manager statements, the manager holding the stripped functions and then
   * the passthrough methods.
   */
  lemma ClassStepSpec(cfg: Config, st: RewriterState, s: Stmt)
    requires s.ClassDef? && s.name !in cfg.exclude && ClassStep(cfg, st, s).Visited?
    ensures var o := ClassStep(cfg, st, s);
            var (rest, ops) := CR.SplitOperations(s.body);
            o.value.ClassDef? && o.value.name == s.name && o.value.bases == s.bases
            && o.st.modified == (st.modified || exists k :: 0 <= k < |s.body| && CR.IsOperations(s.body[k]))
            && (ops.None? ==> o.value == s)
            && (ops.Some? && ops.value != [] ==>
                  |o.value.body| == |rest| + 3 && o.value.body[..|rest|] == rest
                  && o.value.body[|rest|..] == ManagerStatements(s.name, StripOperations(ops.value)
                                                 + SynthesizedMethods(cfg.descriptors, CR.BaseModels(o.st.generics, s.bases)).value))
            && (forall k :: 0 <= k < |rest| ==> !CR.IsOperations(o.value.body[k]))
            && (forall k :: |rest| <= k < |o.value.body| ==> !CR.IsOperations(o.value.body[k]))
  {
    CR.SplitOperationsSpec(s.body);
    var o := ClassStep(cfg, st, s);
    var (rest, ops) := CR.SplitOperations(s.body);
    if ops.Some? && ops.value != [] {
      assert o.value.body[..|rest|] == rest;
      assert CR.ManagerName != CR.OperationsClassName;
    }
  }

  /** An excluded class comes back as it is, its type-parameter pair recorded and `modified` untouched. */
  lemma ExcludedClassUnchanged(cfg: Config, st: RewriterState, s: Stmt)
    requires s.ClassDef? && s.name in cfg.exclude
    requires |s.typeParams| == 0 || |s.typeParams| == 2 || s.name == CR.ControllerClassName
    ensures VisitStmt(cfg, st, s).Visited? && VisitStmt(cfg, st, s).value == s
    ensures VisitStmt(cfg, st, s).st.modified == st.modified
    ensures |s.typeParams| == 2 && s.name != CR.ControllerClassName ==>
              Get(VisitStmt(cfg, st, s).st.generics, s.name) == Some(CR.DataModels(s.typeParams[0], s.typeParams[1]))
  {
    if |s.typeParams| == 2 && s.name != CR.ControllerClassName {
      PutGet(st.generics, s.name, CR.DataModels(s.typeParams[0], s.typeParams[1]), s.name);
    }
  }

  /** A class with one type parameter, or more than two, raises and changes nothing. */
  lemma TypeParamsMismatchRaises(cfg: Config, st: RewriterState, s: Stmt)
    requires s.ClassDef? && s.name != CR.ControllerClassName && |s.typeParams| > 0 && |s.typeParams| != 2
    ensures VisitStmt(cfg, st, s).Raised? && VisitStmt(cfg, st, s).st == st
  {
  }

  /** A class whose `Operations` needs a passthrough method without a return hint raises, with `modified` set. */
  lemma MissingReturnHintRaises(cfg: Config, st: RewriterState, s: Stmt, k: nat)
    requires s.ClassDef? && s.name !in cfg.exclude
    requires |s.typeParams| == 0 || |s.typeParams| == 2 || s.name == CR.ControllerClassName
    requires CR.OperationsNonEmpty(s.body) && exists j :: 0 <= j < |s.body| && CR.IsOperations(s.body[j])
    requires k < |cfg.descriptors| && RaisesOnEntry(cfg.descriptors[k])
    ensures VisitStmt(cfg, st, s).Raised? && VisitStmt(cfg, st, s).st.modified
  {
    CR.SplitOperationsSpec(s.body);
    var st1 := RecordTypeParams(st, s.name, s.typeParams).value;
    SynthesizedMethodsSpec(cfg.descriptors, CR.BaseModels(st1.generics, s.bases));
  }

  /** Whether the walk meets a class it rewrites: one not excluded with an `Operations` child. */
  predicate Reaches(exclude: set<string>, s: Stmt)
    decreases StmtSize(s), 0
  {
    match s
    case ClassDef(name, _, _, body) => name !in exclude && CR.SplitOperations(body).1.Some?
    case FunctionDef(_, _, _, _, body, _) => BodyReaches(exclude, body)
    case _ => false
  }

  predicate BodyReaches(exclude: set<string>, body: seq<Stmt>)
    decreases BodySize(body), 1
  {
    if body == [] then false
    else
      var n := |body|;
      BodyMeasuresSnoc(body[..n - 1], body[n - 1]);
      assert body[..n - 1] + [body[n - 1]] == body;
      BodyReaches(exclude, body[..n - 1]) || Reaches(exclude, body[n - 1])
  }

  /**
   * A visit that completes sets `modified` exactly when it meets a class it
   * rewrites, and returns a statement it meets no such class in unchanged.
   */
  lemma {:induction false} VisitStmtModified(cfg: Config, st: RewriterState, s: Stmt)
    ensures VisitStmt(cfg, st, s).Visited? ==>
              VisitStmt(cfg, st, s).st.modified == (st.modified || Reaches(cfg.exclude, s))
              && (!Reaches(cfg.exclude, s) ==> VisitStmt(cfg, st, s).value == s)
    decreases StmtSize(s), 0
  {
    match s
    case ClassDef(_, _, _, _) =>
      CR.SplitOperationsSpec(s.body);
    case FunctionDef(_, _, _, _, body, _) =>
      VisitBodyModified(cfg, st, body);
    case _ =>
  }

  lemma {:induction false} VisitBodyModified(cfg: Config, st: RewriterState, body: seq<Stmt>)
    ensures VisitBody(cfg, st, body).Visited? ==>
              VisitBody(cfg, st, body).st.modified == (st.modified || BodyReaches(cfg.exclude, body))
              && (!BodyReaches(cfg.exclude, body) ==> VisitBody(cfg, st, body).value == body)
    decreases BodySize(body), 1
  {
    if body != [] {
      var n := |body|;
      BodyMeasuresSnoc(body[..n - 1], body[n - 1]);
      assert body[..n - 1] + [body[n - 1]] == body;
      VisitBodyModified(cfg, st, body[..n - 1]);
      var o := VisitBody(cfg, st, body[..n - 1]);
      if o.Visited? {
        VisitStmtModified(cfg, o.st, body[n - 1]);
      }
    }
  }

  /** A prefix that raises makes the whole body raise, leaving the same state. */
  lemma {:induction false} VisitBodyRaisedPrefix(cfg: Config, st: RewriterState, body: seq<Stmt>, i: nat)
    requires i <= |body| && VisitBody(cfg, st, body[..i]).Raised?
    ensures VisitBody(cfg, st, body) == VisitBody(cfg, st, body[..i])
    decreases |body| - i
  {
    if i < |body| {
      var n := |body|;
      assert body[..n - 1][..i] == body[..i];
      VisitBodyRaisedPrefix(cfg, st, body[..n - 1], i);
    } else {
      assert body[..i] == body;
    }
  }

  // ---------------------------------------------------------------------
  // apply_rewrites_to_stub

  /** `set(exclude_classes)` */
  function ExcludedNames(exclude: seq<string>): set<string> {
    set c | c in exclude
  }

  /**
   * One stub file with a fresh rewriter: nothing happens to a missing or
   * unparsable file; otherwise the module is visited and, when `modified`
   * is set, written back behind the two fixed import lines.
   */
  function ApplyRun(ds: seq<MethodDescriptor>, exclude: seq<string>, file: CR.StubFile, unparse: Module -> string): CR.RunOutcome {
    if !file.present || file.tree.None? then CR.Untouched
    else match VisitBody(Config(ExcludedNames(exclude), ds), RewriterState([], false), file.tree.value)
      case Raised(_, _) => CR.VisitRaised
      case Visited(st', tree) =>
        if st'.modified then CR.Written(Join(CR.DefaultImports, "\n") + "\n" + unparse(tree)) else CR.Untouched
  }

  /**
   * Each file starts from a clean rewriter, so a file is written exactly
   * when the walk meets a class it rewrites, and the text written is the
   * two imports followed by the unparsed tree.
   */
  lemma ApplyRunWritesIffRewritten(ds: seq<MethodDescriptor>, exclude: seq<string>, file: CR.StubFile, unparse: Module -> string)
    requires file.present && file.tree.Some?
    requires VisitBody(Config(ExcludedNames(exclude), ds), RewriterState([], false), file.tree.value).Visited?
    ensures var o := VisitBody(Config(ExcludedNames(exclude), ds), RewriterState([], false), file.tree.value);
            (ApplyRun(ds, exclude, file, unparse).Written? <==> BodyReaches(ExcludedNames(exclude), file.tree.value))
            && (ApplyRun(ds, exclude, file, unparse).Written? ==>
                  ApplyRun(ds, exclude, file, unparse).text
                  == "from __future__ import annotations\nimport typing\n" + unparse(o.value))
  {
    VisitBodyModified(Config(ExcludedNames(exclude), ds), RewriterState([], false), file.tree.value);
    assert Join(CR.DefaultImports, "\n") == "from __future__ import annotations\nimport typing";
  }

  // ---------------------------------------------------------------------
  // The rewriter object

  /** `[arg for arg in stmt.args.args if arg.arg != "request"]` */
  method KeepNonRequestArgs(args: seq<Arg>) returns (out: seq<Arg>)
    ensures out == CR.WithoutRequestParams(args)
  {
    out := [];
    for i := 0 to |args|
      invariant out == CR.WithoutRequestParams(args[..i])
    {
      if args[i].name != CR.RequestParamName {
        out := out + [args[i]];
      }
      assert args[..i + 1][..i] == args[..i];
    }
    assert args[..|args|] == args;
  }

  /** `remove_request_argument_from_methods`, a static method. */
  method RemoveRequestArgumentFromMethods(body: seq<Stmt>) returns (newBody: seq<Stmt>)
    ensures newBody == StripOperations(body)
  {
    newBody := [];
    for i := 0 to |body|
      invariant newBody == StripOperations(body[..i])
    {
      var stmt := body[i];
      if stmt.FunctionDef? && !stmt.isAsync {
        var args := KeepNonRequestArgs(stmt.params.args);
        stmt := stmt.(params := stmt.params.(args := args));
      }
      newBody := newBody + [stmt];
      assert body[..i + 1][..i] == body[..i];
    }
    assert body[..|body|] == body;
  }

  /** The argument loop of `add_original_request_manager_body`. */
  method CompileArguments(specs: seq<ArgSpec>) returns (compiled: seq<Arg>)
    ensures compiled == CompileArgs(ArgsToAnalyze(specs))
  {
    var toAnalyze := if |specs| > 0 && specs[0].name == "self" then specs[1..] else specs;
    compiled := [];
    for i := 0 to |toAnalyze|
      invariant compiled == CompileArgs(toAnalyze[..i])
    {
      var a := toAnalyze[i];
      compiled := compiled + [Arg(a.name, if a.hintName.Some? then Some(Name(a.hintName.value)) else None)];
      assert toAnalyze[..i + 1][..i] == toAnalyze[..i];
    }
    assert toAnalyze[..|toAnalyze|] == toAnalyze;
  }

  class RequestMakerRewriter {
    var excludeClasses: set<string>
    var modified: bool
    var generics: Dict<CR.DataModels>
    /** The entries of `_RequestManager.__dict__`, as reflection yields them. */
    const descriptors: seq<MethodDescriptor>

    /** `RequestMakerRewriter(set(exclude_classes))` */
    constructor(exclude: set<string>, descriptors: seq<MethodDescriptor>)
      ensures excludeClasses == exclude && !modified && generics == [] && this.descriptors == descriptors
    {
      excludeClasses := exclude;
      modified := false;
      generics := [];
      this.descriptors := descriptors;
    }

    function State(): RewriterState
      reads this
    {
      RewriterState(generics, modified)
    }

    function Settings(): Config
      reads this
    {
      Config(excludeClasses, descriptors)
    }

    /** The compiling loop of `add_original_request_manager_body`; `ok` is false when it raises. */
    method CompileOriginalMethods(dataModels: Option<CR.DataModels>) returns (ok: bool, originals: seq<Stmt>)
      ensures var o := SynthesizedMethods(descriptors, dataModels);
              ok == o.Success? && (ok ==> originals == o.value)
    {
      originals := [];
      for i := 0 to |descriptors|
        invariant SynthesizedMethods(descriptors[..i], dataModels) == Success(originals)
      {
        var d := descriptors[i];
        assert descriptors[..i + 1][..i] == descriptors[..i];
        if !StartsWith(d.name, "__") && d.isCallable {
          if d.returnHint.None? {
            SynthesizedMethodsSpec(descriptors, dataModels);
            assert RaisesOnEntry(descriptors[i]);
            return false, [];
          }
          var compiledArguments := CompileArguments(d.args);
          var docstring := LegacyIndentDocstring(d.doc);
          var (text, present) := CR.ReturnText(d.returnHint.value, dataModels);
          var serialized := if text == CR.NestedManagerName then QuotedManagerName else text;
          var compiled := FunctionDef(d.name, false, Params([Arg("self", None)] + compiledArguments, None, [], None),
                                      if present then Some(Name(serialized)) else None,
                                      [if docstring == "" then Pass else DocExpr(docstring)], []);
          originals := originals + [compiled];
        }
      }
      assert descriptors[..|descriptors|] == descriptors;
      ok := true;
    }

    /** `add_original_request_manager_body`; `ok` is false when it raises. */
    method AddOriginalRequestManagerBody(body: seq<Stmt>, dataModels: Option<CR.DataModels>) returns (ok: bool, newBody: seq<Stmt>)
      ensures var o := SynthesizedMethods(descriptors, dataModels);
              ok == o.Success? && (ok ==> newBody == body + o.value)
    {
      var originals;
      ok, originals := CompileOriginalMethods(dataModels);
      newBody := body;
      if ok {
        newBody := CR.RequestMakerRewriter.AppendMethods(body, originals);
      }
    }

    /** The `data_models` loop: the first plain-name base with bindings. */
    method FindDataModels(bases: seq<Expr>) returns (dataModels: Option<CR.DataModels>)
      ensures dataModels == CR.BaseModels(generics, bases)
    {
      dataModels := None;
      var k := 0;
      while k < |bases|
        invariant k <= |bases|
        invariant CR.BaseModels(generics, bases) == CR.BaseModels(generics, bases[k..])
      {
        if bases[k].Name? && bases[k].id in Keys(generics) {
          dataModels := Get(generics, bases[k].id);
          return;
        }
        assert bases[k..][1..] == bases[k + 1..];
        k := k + 1;
      }
    }

    /** The `Operations` loop of `visit_ClassDef`. */
    method TakeOperations(body: seq<Stmt>) returns (controllerBody: seq<Stmt>, requestMakerBody: seq<Stmt>)
      modifies this
      ensures controllerBody == CR.SplitOperations(body).0
      ensures requestMakerBody == if CR.SplitOperations(body).1.Some? then StripOperations(CR.SplitOperations(body).1.value) else []
      ensures modified == (old(modified) || CR.SplitOperations(body).1.Some?)
      ensures generics == old(generics) && excludeClasses == old(excludeClasses)
    {
      requestMakerBody := [];
      controllerBody := [];
      for i := 0 to |body|
        invariant controllerBody == CR.SplitOperations(body[..i]).0
        invariant requestMakerBody == if CR.SplitOperations(body[..i]).1.Some?
                                      then StripOperations(CR.SplitOperations(body[..i]).1.value) else []
        invariant modified == (old(modified) || CR.SplitOperations(body[..i]).1.Some?)
        invariant generics == old(generics) && excludeClasses == old(excludeClasses)
      {
        var stmt := body[i];
        if stmt.ClassDef? && stmt.name == CR.OperationsClassName {
          requestMakerBody := RemoveRequestArgumentFromMethods(stmt.body);
          modified := true;
        } else {
          controllerBody := controllerBody + [stmt];
        }
        assert body[..i + 1][..i] == body[..i];
      }
      assert body[..|body|] == body;
    }

    /** The type-parameter bindings at the top of `visit_ClassDef`; `false` when unpacking raises. */
    method RecordClassTypeParams(node: Stmt) returns (ok: bool)
      requires node.ClassDef?
      modifies this
      ensures var o := RecordTypeParams(old(State()), node.name, node.typeParams);
              ok == o.Success? && (ok ==> State() == o.value) && (!ok ==> State() == old(State()))
      ensures excludeClasses == old(excludeClasses)
    {
      if |node.typeParams| > 0 && node.name != CR.ControllerClassName {
        if |node.typeParams| != 2 {
          return false;
        }
        generics := Put(generics, node.name, CR.DataModels(node.typeParams[0], node.typeParams[1]));
      }
      return true;
    }

    method VisitClassDef(node: Stmt) returns (ok: bool, r: Stmt)
      requires node.ClassDef?
      modifies this
      ensures var o := ClassStep(old(Settings()), old(State()), node);
              State() == o.st && ok == o.Visited? && (ok ==> r == o.value)
      ensures excludeClasses == old(excludeClasses)
    {
      ok := RecordClassTypeParams(node);
      if !ok {
        return false, node;
      }
      if node.name in excludeClasses {
        return true, node;
      }
      var controllerBody, requestMakerBody := TakeOperations(node.body);
      var dataModels := FindDataModels(node.bases);
      if requestMakerBody != [] {
        var managerBody;
        ok, managerBody := AddOriginalRequestManagerBody(requestMakerBody, dataModels);
        if !ok {
          return false, node;
        }
        controllerBody := controllerBody + ManagerStatements(node.name, managerBody);
      }
      r := ClassDef(node.name, node.bases, node.typeParams, controllerBody);
    }

    /** `visit`: `visit_ClassDef` for a class, `generic_visit` for every other statement. */
    method Visit(s: Stmt) returns (ok: bool, r: Stmt)
      modifies this
      ensures var o := VisitStmt(old(Settings()), old(State()), s);
              State() == o.st && ok == o.Visited? && (ok ==> r == o.value)
      ensures excludeClasses == old(excludeClasses)
      decreases StmtSize(s), 1
    {
      if s.ClassDef? {
        ok, r := VisitClassDef(s);
      } else if s.FunctionDef? {
        var body;
        ok, body := GenericVisit(s.body);
        r := FunctionDef(s.name, s.isAsync, s.params, s.returnType, body, s.decorators);
      } else {
        ok, r := true, s;
      }
    }

    /** `generic_visit` over a list of statements; an exception stops the walk. */
    method GenericVisit(body: seq<Stmt>) returns (ok: bool, out: seq<Stmt>)
      modifies this
      ensures var o := VisitBody(old(Settings()), old(State()), body);
              State() == o.st && ok == o.Visited? && (ok ==> out == o.value)
      ensures excludeClasses == old(excludeClasses)
      decreases BodySize(body), 2
    {
      out := [];
      for i := 0 to |body|
        invariant VisitBody(old(Settings()), old(State()), body[..i]) == Visited(State(), out)
        invariant excludeClasses == old(excludeClasses)
      {
        BodyMeasuresBound(body, i);
        var ok1, s1 := Visit(body[i]);
        assert body[..i + 1][..i] == body[..i];
        if !ok1 {
          VisitBodyRaisedPrefix(old(Settings()), old(State()), body, i + 1);
          return false, out;
        }
        out := out + [s1];
      }
      assert body[..|body|] == body;
      ok := true;
    }
  }

  /** `apply_rewrites_to_stub(stub_path, exclude_classes)` with the file and reflection given as values. */
  method ApplyRewritesToStub(ds: seq<MethodDescriptor>, exclude: seq<string>, file: CR.StubFile, unparse: Module -> string)
    returns (outcome: CR.RunOutcome)
    ensures outcome == ApplyRun(ds, exclude, file, unparse)
  {
    if !file.present || file.tree.None? {
      return CR.Untouched;
    }
    var transformer := new RequestMakerRewriter(ExcludedNames(exclude), ds);
    var ok, tree := transformer.GenericVisit(file.tree.value);
    if !ok {
      return CR.VisitRaised;
    }
    if transformer.modified {
      var additionalImports := ["from __future__ import annotations", "import typing"];
      assert additionalImports == CR.DefaultImports;
      return CR.Written(Join(additionalImports, "\n") + "\n" + unparse(tree));
    }
    return CR.Untouched;
  }
}
