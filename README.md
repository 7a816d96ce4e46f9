# Nexos API stub rewriter and endpoint controllers, modelled in Dafny

The Nexos API SDK has a build step that post-processes the `.pyi` type stubs
`mypy.stubgen` generates. This project models that step and the runtime code
whose stubs it rewrites.

- The controller rewriter (`make/compiler/rewrites/controllers.py`) works on
  each controller class. It takes out the nested `Operations` class. It
  strips the `request` parameter from the operations. It appends a
  `RequestManager` class that holds those operations and passthrough
  methods synthesized from the runtime `_RequestManager`, followed by a
  typed `request` accessor. It also substitutes the bound request and
  response models for the generic placeholders.
- Two older rewriters do the same job more simply:
  - `make/compiler/rewrite.py`, modelled as `LegacyRewriter`;
  - `utils/types_compiler/compile.py`, modelled as `EarliestRewriter`.
- The TypedDict writer (`make/compiler/rewrites/models.py`) does four things:
  - finds the pydantic models of the domain stubs and decides which fields
    are optional: a field with a default, or one whose annotation
    `annotation_contains_none` accepts (`str | None`, `Union[str, None]`;
    a bare `Optional[str]` is not accepted, see Findings);
  - emits a `<Model>Data(typing.TypedDict)` source per model and appends
    the sources that are missing;
  - maps every model to its TypedDict and module;
  - rewrites `Annotated[..., "model:<Name>"]` parameter and return
    annotations to the TypedDict names, then inserts the grouped imports.
- The shared `StubTransformer` base (`make/compiler/rewrites/base.py`)
  supplies a docstring-indentation helper and a per-class singleton `apply`.
- The runtime endpoint controllers (`src/nexosapi/api/controller.py`,
  `src/nexosapi/endpoints/controller.py`, `src/nexosapi/endpoints/base.py`)
  do two jobs:
  - They parse and validate endpoints of the form `verb:/path`. This is a
    prefix check plus the pattern `^(post|get|delete|patch):(\/[a-zA-Z0-9\/_-]+)$`.
  - Their request manager holds the `pending` request. `prepare`, `dump`,
    `reload_last` and the wrapped operations update it.

## How the model is built

**The stub AST** (`StubAst`)
- Python's `ast` is modelled as a small datatype of stub statements and
  expressions: classes, functions, assignments, annotated assignments and
  docstrings, plus names, attributes, subscripts, tuples, `|`, constants
  and calls. Any other expression (a list, a dictionary, a starred
  expression, …) keeps its child expressions, which the `ast.walk` in the
  binding search enters and the annotation rewrites leave alone, as the
  source does.
- A parsed file is an `Option<Module>`, where `None` stands for a
  `SyntaxError`. `ast.unparse` is a function parameter.

**The visitor classes**
- They are Dafny classes holding the fields the Python objects update:
  `modified`, `_generics`, `_current_controller_class`, `class_stack` and
  `models_map`.
- Their methods loop over bodies as the source does.
- Each method is proved equal to a specification function of its inputs and
  its old state. The lemmas about those functions state what the source
  promises.
- AST nodes are values: a visit returns the new node instead of mutating it.

**Reflection**
- Reflection on the runtime `_RequestManager` is an input:
  - `inspect.getsource` parsing, `typing.get_type_hints` and
    `inspect.getfullargspec` become a list of method descriptors;
  - `importlib.import_module` becomes an "importable" predicate.

**Pydantic**
- At runtime, model validation and `model_dump` are supplied functions.
- The JSON round trip in `dump` is modelled on a JSON datatype, with one
  extra case for a Python value that `json.dumps` cannot encode, such as
  `bytes`.

**Order**
- Dictionaries whose insertion order matters are association lists
  (`OrderedMaps`). Python's string order is modelled in `StringOrder`.

## Model

| member | source | states |
|---|---|---|
| StubTransformerBase.IndentDocstring | make/compiler/rewrites/base.py:28-29 | a missing or empty docstring gives `""` |
| StubTransformerBase.IndentDocstringLines | make/compiler/rewrites/base.py:30-32 | read back by lines, the result has one line per `splitlines()` line of the input: the first is unchanged, every later one sits behind exactly `indent` blanks |
| StubTransformerBase.LegacyIndentDocstring | make/compiler/rewrite.py:31-35 | the older helper, written out on its own, is the shared helper with twelve blanks, so it inherits the line-by-line property |
| StubTransformerBase.InstanceRegistry.constructor | make/compiler/rewrites/base.py:18 | no instance exists before the first `apply` |
| StubTransformerBase.InstanceRegistry.Apply | make/compiler/rewrites/base.py:42-47 | the first call for a class creates a fresh instance and records it; every later call returns that same object and changes nothing |
| ModelAnnotations.OptionalIsMissed | make/compiler/rewrites/models.py:213-239 | as written, `Optional[int]` is reported as not admitting `None`, while the corrected analysis admits it (Findings) |
| ModelAnnotations.AdmitsNoneExtends | make/compiler/rewrites/models.py:213-239 | the corrected analysis accepts everything `annotation_contains_none` accepts, and every `Optional[...]` |
| ModelAnnotations.AgreeWithoutOptional | make/compiler/rewrites/models.py:213-239 | with no `Optional[...]` where the analysis looks, the corrected and the original analyses agree |
| ModelAnnotations.AnnotationExamples | make/compiler/rewrites/models.py:213-239 | under both `annotation_contains_none` and the corrected analysis, `int` and `dict[str, int]` do not contain `None`, while `str \| None`, `Union[str, None]` and `list[None]` do |
| ModelAnnotations.RewriteUnmentioned | make/compiler/rewrites/models.py:80-110 | an annotation that mentions no base-model name where the rewrite looks comes back unchanged |
| ModelAnnotations.RewriteIdempotent | make/compiler/rewrites/models.py:80-110 | when no `<Name>Data` is itself a base model, rewriting twice equals rewriting once |
| ModelAnnotations.RewriteKeepsOptionality | make/compiler/rewrites/models.py:80-110 | renaming base models never changes whether a field annotation admits `None` |
| ModelAnnotations.RewriteKeepsNoneDetection | make/compiler/rewrites/models.py:80-110 | renaming base models never changes what `annotation_contains_none` reports for a field annotation |
| ModelAnnotations.KeepsOptionalHead | make/compiler/rewrites/models.py:82-92 | a subscript head reads `Optional` after the rename exactly when it did before |
| ModelAnnotations.RewriteExample | make/compiler/rewrites/models.py:95-110 | `list[Model] \| None` becomes `list[ModelData] \| None` |
| DomainModels.FieldsOfAppend | make/compiler/rewrites/models.py:203-244 | fields are collected statement by statement: the fields of a concatenated body are those of its parts, in order |
| DomainModels.FieldsOfMembers | make/compiler/rewrites/models.py:203-244 | a field is reported exactly when some statement of the class body declares it, optional exactly when it has a default or `annotation_contains_none` accepts its annotation |
| DomainModels.CorrectedFieldOfExtends | make/compiler/rewrites/models.py:203-244 | the corrected field analysis reports the same fields under the same names; it only turns required fields optional, and only when an `Optional[...]` is in view of the analysis |
| DomainModels.FieldExamples | make/compiler/rewrites/models.py:204-244 | `x: int` and a bare `x: Optional[str]` are required; a default or `str \| None` makes a field optional; the corrected analysis makes `x: Optional[str]` optional; attribute targets and plain assignments are no fields |
| DomainModels.ModelsOfKeys | make/compiler/rewrites/models.py:194-200 | exactly the classes with a plain-name base among `BaseModel`, `NullableBaseModel`, `NexosAPIRequest` and `NexosAPIResponse` are reported, under their names |
| DomainModels.ModelsOfFields | make/compiler/rewrites/models.py:194-245 | a reported model carries the fields of the last class of that name, with their optionality as the code decides it |
| DomainModels.ModelsIgnoreOthers | make/compiler/rewrites/models.py:194-200 | statements that are not model classes do not change what is reported |
| DomainModels.TypedDictsAreNotModels | make/compiler/rewrites/models.py:196-200 | appended `typing.TypedDict` classes are never taken for models |
| DomainModels.ExtractBaseModelsDefinitions | make/compiler/rewrites/models.py:190-248 | a syntax error yields the empty map; otherwise the loop yields exactly the models specified above |
| DomainModels.ClassFieldAnnotation | make/compiler/rewrites/models.py:179-186 | the annotation found belongs to an annotated assignment to that field name; `None` exactly when the body declares no such field |
| DomainModels.ModuleFieldAnnotation | make/compiler/rewrites/models.py:177-186 | a found annotation comes from a top-level class with the model's name |
| DomainModels.FieldAnnotation | make/compiler/rewrites/models.py:169-187 | a found annotation comes from a stub that parses and declares the field |
| DomainModels.LinesSingleLine | make/compiler/rewrites/models.py:141-163 | when unparsing is single-line, every emitted TypedDict line is one line of text |
| DomainModels.TypedDictLinesShape | make/compiler/rewrites/models.py:138-165 | the header is `class <Model>Data(typing.TypedDict):`; an empty model gets `    pass`; otherwise there is one `    <name>: <type>` line per field in order, optional ones wrapped in `typing.NotRequired[...]`, a missing annotation typed `typing.Any` |
| DomainModels.TypedDictSourceLines | make/compiler/rewrites/models.py:138-165 | the same layout holds for the joined source text read back line by line |
| DomainModels.AppendMissingPrefix | make/compiler/rewrites/models.py:68-71 | the result starts with the content stripped of trailing blanks |
| DomainModels.AppendMissingEnd | make/compiler/rewrites/models.py:68-71 | the result is empty or ends in a visible character |
| DomainModels.AppendMissingContains | make/compiler/rewrites/models.py:68-71 | every generated source is contained in the result |
| DomainModels.AppendContained | make/compiler/rewrites/models.py:68-71 | when the content already contains every source, nothing is appended |
| DomainModels.AppendMissingIdempotent | make/compiler/rewrites/models.py:68-73 | appending to the result again appends nothing |
| DomainModels.SourcesEndVisible | make/compiler/rewrites/models.py:141-165 | every generated source ends in a visible character |
| DomainModels.ProcessStubFileIdempotent | make/compiler/rewrites/models.py:60-78 | processing a stub again, after its TypedDicts were appended, finds the same models and leaves the text unchanged, so nothing is written |
| DomainModels.DomainModelsWriter.constructor | make/compiler/rewrites/models.py:13-17 | a writer starts unmodified, over the given stubs and root |
| DomainModels.DomainModelsWriter.GenerateTypedDictsSrc | make/compiler/rewrites/models.py:126-167 | the loop emits one source per model in the dictionary's order, each as laid out above |
| DomainModels.DomainModelsWriter.ModelLines | make/compiler/rewrites/models.py:138-163 | the loop builds one model's lines, header first and one field line per field in order (or `pass`), as `TypedDictLines` specifies |
| DomainModels.DomainModelsWriter.FieldTypeCode | make/compiler/rewrites/models.py:147-159 | a field's annotation code is the any-type when the annotation is missing or cannot be re-parsed, and otherwise the rewritten annotation, as `AnnotationCode` specifies |
| DomainModels.DomainModelsWriter.ProcessStubFile | make/compiler/rewrites/models.py:60-78 | the new text appends the missing sources; `changed` holds exactly when it differs from the old text; `modified` accumulates it |
| DomainModels.DomainModelsWriter.BuildBasemodelToTypeddictMap | make/compiler/rewrites/models.py:261-287 | the loop builds the map stub by stub, as `TypedDictMap` specifies |
| DomainModels.MapModels | make/compiler/rewrites/models.py:282-285 | every model of a stub is mapped to `(<Model>Data, module)` |
| DomainModels.AppendMissingTypedDicts | make/compiler/rewrites/models.py:68-71 | the append loop computes the append step specified above |
| DomainModels.ImportModule | make/compiler/rewrites/models.py:277-280 | an empty module name raises; otherwise the path is kept when importable and becomes `""` when not |
| DomainModels.TypedDictMapPrefix | make/compiler/rewrites/models.py:273-285 | the map grows one stub at a time, in the order of the stubs |
| DomainModels.TypedDictMapFailureSticks | make/compiler/rewrites/models.py:273-280 | once a stub raises, the whole build fails with that error |
| DomainModels.PutKeepsNaming | make/compiler/rewrites/models.py:284-285 | overwriting an entry with `(<key>Data, path)` keeps every entry named after its model |
| DomainModels.PutEntry | make/compiler/rewrites/models.py:285 | after `d[k] = v`, each entry is the new one or an old one |
| DomainModels.PutModelsNaming | make/compiler/rewrites/models.py:282-285 | mapping a stub's models keeps every entry named `<Model>Data` |
| DomainModels.TypedDictMapNaming | make/compiler/rewrites/models.py:261-287 | every model in a built map points to its own `<Model>Data` TypedDict |
| StubPaths.LastIndexOf | make/compiler/rewrites/models.py:258 | the index of the last occurrence of the character, or the length when it is absent |
| StubPaths.Suffix | make/compiler/rewrites/models.py:258 | the suffix is empty or a dot-led tail of at least two characters |
| StubPaths.Stem | make/compiler/rewrites/models.py:258 | the stem followed by the suffix is the name |
| StubPaths.RelativeTo | make/compiler/rewrites/models.py:255-257 | succeeds exactly when the root is a prefix of the path, and then root plus result is the path |
| StubPaths.WithoutSuffix | make/compiler/rewrites/models.py:258 | fails exactly on an empty path; otherwise only the last part loses its suffix |
| StubPaths.ReplaceChar | make/compiler/rewrites/models.py:258 | keeps the length and changes exactly the occurrences of the character |
| StubPaths.ReplaceCharAppend | make/compiler/rewrites/models.py:258 | replacement distributes over concatenation |
| StubPaths.ReplaceJoin | make/compiler/rewrites/models.py:258 | turning `/` into `.` in a join of slash-free parts is joining with `.` |
| StubPaths.ModulePathForStub | make/compiler/rewrites/models.py:250-259 | `""` with no root; every module path starts with `nexosapi.domain.`; a stub equal to the root raises |
| StubPaths.StemOfStubFile | make/compiler/rewrites/models.py:258 | `<name>.pyi` has the stem `<name>` |
| StubPaths.ModuleFileOfNestedStub | make/compiler/rewrites/models.py:255-258 | a nested stub's location relative to the root, without the suffix, is its directories and stem |
| StubPaths.ModulePathOfNestedStub | make/compiler/rewrites/models.py:250-259 | the stub `<root>/<dirs>/<name>.pyi` lives in `nexosapi.domain.<dirs>.<name>` |
| StringOrder.LessIrreflexive | make/compiler/rewrites/models.py:488 | no name sorts before itself |
| StringOrder.LessTransitive | make/compiler/rewrites/models.py:488 | the order of names is transitive |
| StringOrder.LessTotal | make/compiler/rewrites/models.py:488 | any two names are equal or ordered one way |
| StringOrder.Insert | make/compiler/rewrites/models.py:488 | inserting into a sorted list keeps it sorted and adds exactly the one name |
| StringOrder.Sort | make/compiler/rewrites/models.py:488 | `sorted` returns a sorted permutation of the names |
| BindAnnotations.WalkVisits | make/compiler/rewrites/models.py:378 | the walk visits exactly the nodes of the queued trees |
| BindAnnotations.WalkRoot | make/compiler/rewrites/models.py:378 | the walk of a tree yields its root first, then the walk of its children |
| BindAnnotations.WalkLeaf | make/compiler/rewrites/models.py:378 | a leaf leaves the queue and adds nothing to it |
| BindAnnotations.MetaName | make/compiler/rewrites/models.py:404-410 | a name is found only in a string constant starting `model:`; it is non-empty and already stripped |
| BindAnnotations.MarkerNames | make/compiler/rewrites/models.py:404-410 | a `model:` marker names the stripped text after its first colon, and nothing when that text is blank |
| BindAnnotations.FirstMetaSpec | make/compiler/rewrites/models.py:401-410 | the metadata scan returns a name one entry carries; it finds none exactly when no entry names a model |
| BindAnnotations.FirstMatchSpec | make/compiler/rewrites/models.py:378-411 | the first match comes from a visited node; none is found exactly when no node matches |
| BindAnnotations.BindModelFound | make/compiler/rewrites/models.py:377-411 | a bound model is a stripped, non-empty name that an `Annotated[...]` node inside the annotation carries as metadata |
| BindAnnotations.BindModelAbsent | make/compiler/rewrites/models.py:377-411 | no model is bound exactly when no node of the annotation names one |
| BindAnnotations.NameBindsNothing | make/compiler/rewrites/models.py:379 | a plain name binds nothing, so a rewritten annotation is never rewritten again |
| BindAnnotations.ChatRequestMeta | make/compiler/rewrites/models.py:406-410 | `"model: ChatRequest "` names `ChatRequest` |
| BindAnnotations.BindAnnotatedMeta | make/compiler/rewrites/models.py:377-411 | `Annotated[x, meta]` binds the model its metadata names, whatever `x` is |
| BindAnnotations.AnnotatedExample | make/compiler/rewrites/models.py:377-411 | `Annotated[dict, "model: ChatRequest "]` binds `ChatRequest` |
| BindAnnotations.BindThroughList | make/compiler/rewrites/models.py:377-411 | under `head[[x], None]` the walk enters the argument list, so the binding is that of `x` |
| BindAnnotations.NestedInListExample | make/compiler/rewrites/models.py:377-411 | `Callable[[Annotated[dict, "model: ChatRequest "]], None]` binds `ChatRequest` |
| BindAnnotations.BindUnderSubscript | make/compiler/rewrites/models.py:378-390 | under a subscript whose head is another plain name, the slice's binding is the binding |
| BindAnnotations.UnboundAnnotatedExample | make/compiler/rewrites/models.py:401-411 | metadata without a `model:` entry binds nothing |
| BindAnnotations.FindBindModelInAnnotation | make/compiler/rewrites/models.py:377-411 | the walk loop that returns at the first match computes the binding specified above |
| BindAnnotations.CheckNode | make/compiler/rewrites/models.py:379-410 | the loop body computes one node's match |
| BindModel.BaseModelInBody | make/compiler/rewrites/models.py:429-440 | the first statement assigning the target decides, even when it names no model; with none, nothing is found |
| BindModel.MappedName | make/compiler/rewrites/models.py:284-285 | in a map built by the TypedDict writer, a known model maps to `<Model>Data` |
| BindModel.HintOfModel | make/compiler/rewrites/models.py:420-421 | a model reference resolves to `<Model>Data` when known, and stays as written otherwise |
| BindModel.HintOfEndpointType | make/compiler/rewrites/models.py:414-419 | `EndpointRequestType`/`EndpointResponseType` resolve through the top class's `request_model`/`response_model` to `<Model>Data`; without one they stay as written |
| BindModel.Ancestors | make/compiler/rewrites/models.py:453-457 | the chain of parents is strictly decreasing in walk order, so the climb terminates |
| BindModel.OutermostClass | make/compiler/rewrites/models.py:450-458 | the result is the last class on the chain, and none exactly when the chain holds no class |
| BindModel.OutermostIsSmallest | make/compiler/rewrites/models.py:450-458 | the class kept is the enclosing class nearest the module |
| BindModel.GetTopParentClass | make/compiler/rewrites/models.py:450-458 | the while loop over the parent map returns the outermost enclosing class |
| BindModel.RewriteArgs | make/compiler/rewrites/models.py:350-361 | the parameter count is kept |
| BindModel.RewriteArgsAt | make/compiler/rewrites/models.py:350-361 | each parameter is rewritten on its own, in place |
| BindModel.AnyArgBindsIff | make/compiler/rewrites/models.py:350-361 | some parameter binds exactly when one of them does |
| BindModel.RewrittenArgBindsNothing | make/compiler/rewrites/models.py:360 | a rewritten parameter binds no model |
| BindModel.FunctionLeavesNoBinds | make/compiler/rewrites/models.py:341-343 | after the rewrite, neither the parameters nor the return of a function bind a model |
| BindModel.RewriteLeavesNoBinds | make/compiler/rewrites/models.py:340-347 | after the rewrite, no annotation in the tree binds a model |
| BindModel.FunctionWithoutBinds | make/compiler/rewrites/models.py:349-374 | a function with nothing bound is left as it is |
| BindModel.RewriteWithoutBinds | make/compiler/rewrites/models.py:340-347 | a statement with nothing bound is left as it is, whatever the map and the top class |
| BindModel.RewriteModuleIdempotent | make/compiler/rewrites/models.py:340-347 | rewriting a rewritten module changes nothing and has nothing to rewrite |
| BindModel.UsedTypedDictsGroups | make/compiler/rewrites/models.py:469-471 | a module's group holds exactly that module's TypedDicts whose names occur in the content |
| BindModel.UsedTypedDictsKeys | make/compiler/rewrites/models.py:469-471 | groups exist only for modules with a TypedDict named in the content |
| BindModel.UsedTypedDictsUnique | make/compiler/rewrites/models.py:467-471 | each module path has one group |
| BindModel.ImportEnd | make/compiler/rewrites/models.py:477-481 | the insertion point follows the last `import`/`from` line, or is the top |
| BindModel.ImportLines | make/compiler/rewrites/models.py:483-489 | each line is `from <module> import <names>` for a group with a non-empty module |
| BindModel.ImportLinesSingleLine | make/compiler/rewrites/models.py:488-489 | every import line is one line of text |
| BindModel.WithImportsUnchanged | make/compiler/rewrites/models.py:473-474 | the content is returned unchanged when no TypedDict name occurs in it with a module to import from |
| BindModel.WithImportsShape | make/compiler/rewrites/models.py:494-496 | a changed content is the lines with the import block and one blank line inserted at the insertion point |
| BindModel.WithImportsLayout | make/compiler/rewrites/models.py:477-496 | read back by lines, the result is the original lines with the import lines inserted after the last import line, then one blank line |
| BindModel.RunOutcomeStep | make/compiler/rewrites/models.py:317-338 | each stub adds at most one write, which it accounts for |
| BindModel.RunWritesOnlyBound | make/compiler/rewrites/models.py:317-338 | only files that exist, are not the API controller's stub and hold a binding are written |
| BindModel.RunFailureSticks | make/compiler/rewrites/models.py:325 | a stub that does not parse ends the run |
| BindModel.BindModelTypeTransformer.constructor | make/compiler/rewrites/models.py:293-295 | a transformer starts unmodified with an empty map |
| BindModel.BindModelTypeTransformer.FindBaseModelFromParentClass | make/compiler/rewrites/models.py:423-440 | the loop over the top class's body returns the model the first matching assignment names |
| BindModel.BindModelTypeTransformer.ResolveHintName | make/compiler/rewrites/models.py:413-421 | the hint is the resolution specified above |
| BindModel.BindModelTypeTransformer.ProcessArgs | make/compiler/rewrites/models.py:350-361 | the loop rewrites each parameter; `modified` is set exactly when one binds |
| BindModel.BindModelTypeTransformer.ProcessArg | make/compiler/rewrites/models.py:351-360 | one parameter is rewritten, and the call reports whether it bound |
| BindModel.BindModelTypeTransformer.ProcessAnnotatedParamBind | make/compiler/rewrites/models.py:349-361 | positional and keyword-only parameters are rewritten; `modified` is set exactly when one binds |
| BindModel.BindModelTypeTransformer.ProcessAnnotatedReturnBind | make/compiler/rewrites/models.py:363-374 | only the return annotation changes; `modified` is set exactly when it binds |
| BindModel.BindModelTypeTransformer.ProcessNodeRecursive | make/compiler/rewrites/models.py:340-347 | the recursion computes the statement rewrite; `modified` is set exactly when the statement holds a binding |
| BindModel.BindModelTypeTransformer.ProcessBody | make/compiler/rewrites/models.py:345-347 | every statement of a body is rewritten in place |
| BindModel.BindModelTypeTransformer.ProcessModule | make/compiler/rewrites/models.py:340-347 | the module rewrite, with `modified` set exactly when some statement holds a binding |
| BindModel.BindModelTypeTransformer.InsertImports | make/compiler/rewrites/models.py:460-496 | the loops compute the grouped import insertion specified above |
| BindModel.BindModelTypeTransformer.RunRewrites | make/compiler/rewrites/models.py:303-338 | with no stubs or an empty map nothing happens; otherwise the map is taken and the stubs are processed in order |
| ControllerRewriter.ManagerRefSpelled | make/compiler/rewrites/controllers.py:229 | the forced return annotation reads `<Cls>.RequestManager` |
| ControllerRewriter.DottedNameOfChain | make/compiler/rewrites/controllers.py:315-325 | an attribute chain, subscripted or not, renders as its parts joined by dots |
| ControllerRewriter.ModelAssignmentInfoSpec | make/compiler/rewrites/controllers.py:299-328 | answers exactly for a first target `request_model` or `response_model`, and then with the rendered value |
| ControllerRewriter.FoundModelSpec | make/compiler/rewrites/controllers.py:353-360 | the model found for a slot is the value of the last statement that binds it, and none without one |
| ControllerRewriter.AddOverrideSpec | make/compiler/rewrites/controllers.py:237-248 | the decorator is present afterwards, at most one entry is added, nothing else changes, and a second application changes nothing |
| ControllerRewriter.ReplaceUnreached | make/compiler/rewrites/controllers.py:263-278 | an annotation with no placeholder in a position the rewrite looks at comes back unchanged |
| ControllerRewriter.ReplaceResolvesAll | make/compiler/rewrites/controllers.py:263-278 | when no model name is itself a placeholder, nothing replaceable is left and a second pass changes nothing |
| ControllerRewriter.PlaceholdersResolve | make/compiler/rewrites/controllers.py:257-273 | each spelling (`""`, `_`, `~_` prefixes), alone or on one side of `\|`, resolves to the bound model |
| ControllerRewriter.ReplaceArgsAnnotations | make/compiler/rewrites/controllers.py:284-286 | the parameter count is kept |
| ControllerRewriter.ReplaceArgsAt | make/compiler/rewrites/controllers.py:284-286 | each parameter has its own annotation rewritten, in place |
| ControllerRewriter.RewriteSignature | make/compiler/rewrites/controllers.py:250-289 | only annotations change: name, kind, body and decorators are kept |
| ControllerRewriter.RewriteSignatureUntouched | make/compiler/rewrites/controllers.py:251-256 | a dunder, or a function with no current or no bound controller, keeps its signature |
| ControllerRewriter.RewriteSignatureBound | make/compiler/rewrites/controllers.py:280-289 | inside a bound controller every parameter keeps its name and place and gets the rewritten annotation, and so does the return |
| ControllerRewriter.WithoutRequestParamsSpec | make/compiler/rewrites/controllers.py:219-220 | no `request` parameter survives, and exactly the others do |
| ControllerRewriter.WithoutRequestParamsAppend | make/compiler/rewrites/controllers.py:219 | filtering splits over concatenation, so the kept parameters keep their relative order |
| ControllerRewriter.WithoutRequestParamsNone | make/compiler/rewrites/controllers.py:219 | a parameter list without `request` is kept as it is |
| ControllerRewriter.DropRequestLines | make/compiler/rewrites/controllers.py:223-224 | no kept docstring line mentions `:param request:` |
| ControllerRewriter.CleanedDocstringHasNoRequestParam | make/compiler/rewrites/controllers.py:221-227 | the cleaned, re-indented docstring never mentions `:param request:` |
| ControllerRewriter.StripOperations | make/compiler/rewrites/controllers.py:215-235 | the body keeps its length and each statement is stripped in place |
| ControllerRewriter.StripOperationSpec | make/compiler/rewrites/controllers.py:216-234 | non-functions pass through; a function keeps its name, kind and decorators, loses every `request` parameter, returns `<current>.RequestManager`, and starts with a docstring without `:param request:` |
| ControllerRewriter.SynthesizeMethodSpec | make/compiler/rewrites/controllers.py:133-201 | dunders, non-callables and entries without a node are skipped; a compiled method keeps the entry's name and the node's kind and parameters after one leading `self`, takes a fresh `self`, has no decorator, and its body is `pass` or the docstring |
| ControllerRewriter.UnderscoreNotInResponseGeneric | make/compiler/rewrites/controllers.py:170 | no name containing `_` is taken for the response placeholder |
| ControllerRewriter.SynthesizedResponseReturn | make/compiler/rewrites/controllers.py:162-178 | a method returning the response placeholder returns the bound response model, or `typing.Any` when none is bound |
| ControllerRewriter.SynthesizedManagerReturn | make/compiler/rewrites/controllers.py:177-183 | a method returning the nested manager returns `<current>.RequestManager` |
| ControllerRewriter.SynthesizedMethodsFrom | make/compiler/rewrites/controllers.py:134-201 | every compiled method comes from a non-dunder entry of the same name |
| ControllerRewriter.SplitOperationsSpec | make/compiler/rewrites/controllers.py:373-378 | the kept statements are exactly the non-`Operations` ones, in order; an `Operations` body is reported exactly when one is present, and it is the last one's |
| ControllerRewriter.BaseModelsSpec | make/compiler/rewrites/controllers.py:380-384 | the data models belong to the first plain-name base with bindings |
| ControllerRewriter.ClassStepModified | make/compiler/rewrites/controllers.py:373-378 | the class step never clears `modified`; with no `Operations` it neither sets it nor changes the body |
| ControllerRewriter.VisitStmtModified | make/compiler/rewrites/controllers.py:330-417 | a visit never clears `modified`, and a tree without `Operations` leaves it as it was |
| ControllerRewriter.VisitBodyModified | make/compiler/rewrites/controllers.py:417 | the same holds for a body |
| ControllerRewriter.VisitBodyKinds | make/compiler/rewrites/controllers.py:417 | a visited body keeps its length, and each statement keeps its kind and name |
| ControllerRewriter.ReshapedBodySpec | make/compiler/rewrites/controllers.py:369-416 | no `Operations` is left; without one the body is unchanged; with one, the other statements keep their order and exactly `class RequestManager(<Cls>._RequestManager)` with the stripped operations plus the passthroughs, then `request: <Cls>.RequestManager`, follow |
| ControllerRewriter.VisitedClassHasNoOperations | make/compiler/rewrites/controllers.py:373-417 | after a visit, a class that is not excluded holds no `Operations` class |
| ControllerRewriter.ClassStepSetsModified | make/compiler/rewrites/controllers.py:373-378 | the step sets `modified` exactly when the body holds an `Operations` class |
| ControllerRewriter.ExcludedClassUnchanged | make/compiler/rewrites/controllers.py:331-341 | an excluded class is returned as it is, after its type-parameter pair is recorded |
| ControllerRewriter.TypeParamsMismatchRaises | make/compiler/rewrites/controllers.py:331-338 | a class with one type parameter, or more than two, raises and changes no state |
| ControllerRewriter.ControllerSubclassBinds | make/compiler/rewrites/controllers.py:343-367 | a direct controller subclass becomes the current controller, bound to its own model assignments (defaulting to `typing.Any`) |
| ControllerRewriter.VisitDunderUntouched | make/compiler/rewrites/controllers.py:251-252 | a dunder function is returned as it is, and its body is not visited |
| ControllerRewriter.InjectedImportsSpec | make/compiler/rewrites/controllers.py:66-70 | exactly the candidate imports absent from the text are injected |
| ControllerRewriter.StickyModifiedRewritesCleanFile | make/compiler/rewrites/controllers.py:62-76 | as written, a file with no `Operations` is written once the flag is set by an earlier file (Findings) |
| ControllerRewriter.CorrectedRunWritesOnlyOperations | make/compiler/rewrites/controllers.py:62-76 | with the flag reset for each file, only a file holding `Operations` is written |
| ControllerRewriter.KeepNonRequestArgs | make/compiler/rewrites/controllers.py:219 | the comprehension is the `request` filter specified above |
| ControllerRewriter.KeepNonRequestLines | make/compiler/rewrites/controllers.py:223-224 | the generator keeps exactly the lines specified above |
| ControllerRewriter.ReplaceArgAnnotations | make/compiler/rewrites/controllers.py:284-286 | the loop rewrites each parameter's annotation |
| ControllerRewriter.CollectModelAssignments | make/compiler/rewrites/controllers.py:352-360 | the loop finds the last binding of each slot |
| ControllerRewriter.VisitBodyRaisedPrefix | make/compiler/rewrites/controllers.py:417 | an exception in a prefix ends the walk with that prefix's state |
| ControllerRewriter.RequestMakerRewriter.constructor | make/compiler/rewrites/controllers.py:31-33 | a rewriter starts with no bindings, no current controller and unmodified |
| ControllerRewriter.RequestMakerRewriter.RemoveRequestArgumentFromMethods | make/compiler/rewrites/controllers.py:208-235 | the loop computes the stripped body specified above |
| ControllerRewriter.RequestMakerRewriter.AddOriginalRequestManagerBody | make/compiler/rewrites/controllers.py:119-206 | the body is followed by every compiled passthrough, in `__dict__` order; nothing is filtered |
| ControllerRewriter.RequestMakerRewriter.CompileOriginalMethods | make/compiler/rewrites/controllers.py:133-199 | the loop over `__dict__` yields exactly the compiled passthroughs, in entry order |
| ControllerRewriter.RequestMakerRewriter.AppendMethods | make/compiler/rewrites/controllers.py:201-204 | every compiled method is appended after the body, in order |
| ControllerRewriter.RequestMakerRewriter.FindDataModels | make/compiler/rewrites/controllers.py:380-384 | the loop returns the first bound plain-name base's models |
| ControllerRewriter.RequestMakerRewriter.RewriteFunctionParameters | make/compiler/rewrites/controllers.py:250-291 | the signature rewrite followed by the visit of the body, with the state threaded |
| ControllerRewriter.RequestMakerRewriter.TakeOperations | make/compiler/rewrites/controllers.py:373-378 | the loop keeps the other statements, strips the last `Operations` body and sets `modified` exactly when one is met |
| ControllerRewriter.RequestMakerRewriter.RecordClassTypeParams | make/compiler/rewrites/controllers.py:331-338 | records the pair, or reports the unpacking error with the state unchanged |
| ControllerRewriter.RequestMakerRewriter.BindControllerClass | make/compiler/rewrites/controllers.py:343-367 | the controller-subclass check and binding |
| ControllerRewriter.RequestMakerRewriter.ReshapeClass | make/compiler/rewrites/controllers.py:330-416 | `visit_ClassDef` up to its `generic_visit` |
| ControllerRewriter.RequestMakerRewriter.VisitClassDef | make/compiler/rewrites/controllers.py:330-417 | the whole class visit, children included |
| ControllerRewriter.RequestMakerRewriter.Visit | make/compiler/rewrites/controllers.py:293-297 | dispatches to the two visitors or to `generic_visit` |
| ControllerRewriter.RequestMakerRewriter.GenericVisit | make/compiler/rewrites/controllers.py:417 | visits a body first to last; an exception stops the walk |
| ControllerRewriter.RequestMakerRewriter.RunRewrites | make/compiler/rewrites/controllers.py:35-76 | an ill-typed `exclude_classes` raises `TypeError`; otherwise a missing or unparsable file is left alone, and a visited one is written exactly when `modified` is then set |
| LegacyRewriter.StripOperations | make/compiler/rewrite.py:125-140 | the body keeps its length |
| LegacyRewriter.StripOperationsAt | make/compiler/rewrite.py:126-139 | each statement is stripped in place |
| LegacyRewriter.StripOperationSpec | make/compiler/rewrite.py:127-137 | only plain functions lose `request` parameters; return annotation, body and decorators stay; stripping is idempotent |
| LegacyRewriter.CompileArgs | make/compiler/rewrite.py:70-77 | one compiled parameter per name |
| LegacyRewriter.CompileArgsSpec | make/compiler/rewrite.py:70-77 | names kept in order; an annotation names the hint exactly when there is one |
| LegacyRewriter.SynthesizeMethodSpec | make/compiler/rewrite.py:53-110 | dunders and non-callables are skipped; a missing return hint raises; otherwise a plain function with a fresh `self` and the parameters after a leading `self`, and no decorator |
| LegacyRewriter.SynthesizedReturns | make/compiler/rewrite.py:79-98 | a `_RequestManager` return becomes `"RequestManager"`; the response placeholder becomes the bound response model, or `typing.Any` when unbound, or no annotation when the bound name is empty |
| LegacyRewriter.SynthesizedMethodsSpec | make/compiler/rewrite.py:53-115 | compiling raises exactly when some entry lacks a return hint; otherwise each method comes from a callable, non-dunder entry of the same name |
| LegacyRewriter.ClassStepSpec | make/compiler/rewrite.py:155-212 | other statements stay verbatim; `modified` is set exactly when there was `Operations`; a non-empty one leaves exactly three statements at the end: the `RequestManager` class, `_RequestManager = RequestManager`, then `request = RequestManager()`; no `Operations` remains |
| LegacyRewriter.ExcludedClassUnchanged | make/compiler/rewrite.py:143-153 | an excluded class is returned as it is, after its type-parameter pair is recorded |
| LegacyRewriter.TypeParamsMismatchRaises | make/compiler/rewrite.py:143-150 | a wrong number of type parameters raises and changes no state |
| LegacyRewriter.MissingReturnHintRaises | make/compiler/rewrite.py:79-84 | a class whose `Operations` needs a method with no return hint raises, with `modified` set |
| LegacyRewriter.VisitStmtModified | make/compiler/rewrite.py:159-164 | a completed visit sets `modified` exactly when it meets a class it rewrites; nested classes are not visited; a statement with no such class comes back unchanged |
| LegacyRewriter.VisitBodyModified | make/compiler/rewrite.py:211-212 | the same holds for a body |
| LegacyRewriter.VisitBodyRaisedPrefix | make/compiler/rewrite.py:234 | an exception in a prefix ends the walk |
| LegacyRewriter.ApplyRunWritesIffRewritten | make/compiler/rewrite.py:222-241 | a parsed file is written exactly when the walk rewrites a class, as the two fixed import lines followed by the unparsed tree |
| LegacyRewriter.KeepNonRequestArgs | make/compiler/rewrite.py:129 | the comprehension is the `request` filter |
| LegacyRewriter.RemoveRequestArgumentFromMethods | make/compiler/rewrite.py:117-140 | the loop computes the stripped body specified above |
| LegacyRewriter.CompileArguments | make/compiler/rewrite.py:65-77 | the loop compiles the parameters after a leading `self` |
| LegacyRewriter.RequestMakerRewriter.constructor | make/compiler/rewrite.py:233 | a fresh rewriter: unmodified, no bindings |
| LegacyRewriter.RequestMakerRewriter.CompileOriginalMethods | make/compiler/rewrite.py:51-110 | the loop compiles the passthroughs in `__dict__` order exactly as `SynthesizedMethods` specifies, and reports the `AttributeError` of an entry without a return hint |
| LegacyRewriter.RequestMakerRewriter.AddOriginalRequestManagerBody | make/compiler/rewrite.py:37-115 | appends every compiled method, or reports the `AttributeError` |
| LegacyRewriter.RequestMakerRewriter.FindDataModels | make/compiler/rewrite.py:166-170 | the first bound plain-name base's models |
| LegacyRewriter.RequestMakerRewriter.TakeOperations | make/compiler/rewrite.py:159-164 | the loop keeps the other statements, strips the last `Operations` body and sets `modified` exactly when one is met |
| LegacyRewriter.RequestMakerRewriter.RecordClassTypeParams | make/compiler/rewrite.py:143-150 | records the pair, or reports the unpacking error with the state unchanged |
| LegacyRewriter.RequestMakerRewriter.VisitClassDef | make/compiler/rewrite.py:142-212 | the class step specified above |
| LegacyRewriter.RequestMakerRewriter.Visit | make/compiler/rewrite.py:234 | `visit` on one statement |
| LegacyRewriter.RequestMakerRewriter.GenericVisit | make/compiler/rewrite.py:234 | `generic_visit` over a body; an exception stops it |
| LegacyRewriter.ApplyRewritesToStub | make/compiler/rewrite.py:215-241 | one file with a fresh rewriter, as specified above |
| EarliestRewriter.ClassStepSpec | utils/types_compiler/compile.py:25-59 | an excluded class is unchanged; otherwise no `Operations` is left, the flag reports exactly whether there was one, without one the class is unchanged, with one the other statements are followed by `RequestMaker` over `<Cls>._RequestMaker` holding the last `Operations` body verbatim and `REQUEST_MAKER_CLASS = RequestMaker` |
| EarliestRewriter.VisitStmtModified | utils/types_compiler/compile.py:32-37 | `modified` becomes true exactly when a rewritten class is met and is never reset; a statement with no such class comes back unchanged |
| EarliestRewriter.VisitBodyModified | utils/types_compiler/compile.py:105 | the same holds for a module body |
| EarliestRewriter.ApplyRunWritesIffRewritten | utils/types_compiler/compile.py:104-113 | a parsed file is written exactly when the walk rewrites a class, and otherwise left untouched |
| EarliestRewriter.RequestMakerRewriter.constructor | utils/types_compiler/compile.py:18-20 | an empty class stack and unmodified |
| EarliestRewriter.RequestMakerRewriter.VisitClassDef | utils/types_compiler/compile.py:22-61 | computes the class step, and leaves `class_stack` exactly as it found it on both ways out |
| EarliestRewriter.RequestMakerRewriter.Visit | utils/types_compiler/compile.py:105 | `visit` on one statement, keeping the stack |
| EarliestRewriter.RequestMakerRewriter.GenericVisit | utils/types_compiler/compile.py:105 | `generic_visit` over a body, keeping the stack |
| EarliestRewriter.ApplyRewritesToStub | utils/types_compiler/compile.py:85-113 | one file with a fresh rewriter, as specified above |
| EndpointFormat.VerbOf | src/nexosapi/api/controller.py:84 | the verb is never longer than the endpoint |
| EndpointFormat.PathOf | src/nexosapi/api/controller.py:94 | there is no path (an `IndexError`) exactly when the endpoint has no colon |
| EndpointFormat.SplitAtFirstColon | src/nexosapi/api/controller.py:84-94 | the split happens at the first colon: the verb is the stripped, upper-cased text before it, the path the stripped rest, later colons included |
| EndpointFormat.MatchesEndpointPatternIff | src/nexosapi/api/controller.py:36 | the character predicate accepts exactly the pattern's language, `$` before one final newline included |
| EndpointFormat.MatchesImpliesLanguage | src/nexosapi/api/controller.py:36 | every accepted endpoint is a pattern verb, a colon and a pattern path |
| EndpointFormat.LanguageImpliesMatches | src/nexosapi/api/controller.py:36 | every such endpoint is accepted |
| EndpointFormat.PutIsRejected | src/nexosapi/api/controller.py:36 | an endpoint starting `put:` never matches |
| EndpointFormat.BraceIsRejected | src/nexosapi/api/controller.py:36 | a path with a `{placeholder}` never matches |
| EndpointFormat.BareSlashIsRejected | src/nexosapi/api/controller.py:36 | a bare `/` path never matches |
| EndpointFormat.MatchingEndpointParts | src/nexosapi/api/controller.py:36 | a matching endpoint yields one of `POST`, `GET`, `DELETE`, `PATCH` and a pattern path |
| EndpointFormat.ValidateEndpoint | src/nexosapi/api/controller.py:215-225 | passes exactly when the class endpoint is a non-empty string matching the pattern and the argument has a verb prefix; the prefix error is raised exactly when the verb prefix or the string check fails |
| EndpointFormat.PatternImpliesPrefix | src/nexosapi/api/controller.py:215-222 | a matching endpoint has a verb prefix and is non-empty |
| EndpointFormat.ValidateOwnEndpoint | src/nexosapi/api/controller.py:240 | called with the class's own endpoint, validation passes exactly when the pattern matches, and the emptiness check never fails |
| ApiController.InitSubclass | src/nexosapi/api/controller.py:228-240 | a direct `abc.ABC` subclass is not checked; otherwise it passes exactly with both models and a matching endpoint, and missing models are reported before a missing endpoint |
| ApiController.ReparseAll | src/nexosapi/api/controller.py:122-128 | one item out per item in |
| ApiController.ReparseMembers | src/nexosapi/api/controller.py:122-128 | one member out per member in |
| ApiController.ReparseNormalizes | src/nexosapi/api/controller.py:122-128 | after the JSON round trip with identity hooks no number is left, and a second round trip changes nothing |
| ApiController.ReparseAllNormalizes | src/nexosapi/api/controller.py:122-128 | the same holds elementwise for arrays |
| ApiController.ReparseMembersNormalizes | src/nexosapi/api/controller.py:122-128 | keys keep their order; values are reparsed |
| ApiController.RequestManager.constructor | src/nexosapi/api/controller.py:60-63 | nothing is pending and no request is remembered |
| ApiController.RequestManager.Prepare | src/nexosapi/api/controller.py:105-114 | a truthy pending request is kept; otherwise valid data's dump becomes pending and the manager is returned; on a validation error the old pending moves to `_last_request`, pending is cleared and `None` is returned |
| ApiController.RequestManager.Dump | src/nexosapi/api/controller.py:122-128 | `{}` when nothing is pending; `TypeError` exactly when a pending value cannot be encoded as JSON; otherwise the pending keys in order with their values reparsed |
| ApiController.RequestManager.ReloadLast | src/nexosapi/api/controller.py:165-167 | a remembered request becomes pending; otherwise pending is kept; the manager is returned |
| ApiController.RequestManager.OperationInput | src/nexosapi/api/controller.py:192-196 | the null model when nothing is pending, else the pending request re-validated |
| ApiController.RequestManager.OperationInputDefined | src/nexosapi/api/controller.py:191-196 | since pending only ever holds a `model_dump`, re-validating it succeeds whenever the request model accepts its own dumps |
| ApiController.RequestManager.ApplyOperation | src/nexosapi/api/controller.py:191-199 | pending becomes the dump of the operation applied to the current input, and the manager is returned; a pending request that no longer validates raises and leaves pending unchanged; that cannot happen when the request model accepts its own dumps |
| EndpointsController.InitSubclass | src/nexosapi/endpoints/controller.py:210-218 | a direct `abc.ABC` subclass is not checked; otherwise it passes exactly with a matching endpoint, and a missing endpoint is reported first |
| EndpointsController.RequestManager.constructor | src/nexosapi/endpoints/controller.py:66-69 | nothing is pending |
| EndpointsController.RequestManager.Prepare | src/nexosapi/endpoints/controller.py:108-115 | a pending request is kept; otherwise the validated data becomes pending, and a validation error leaves nothing pending and returns `None` |
| EndpointsController.RequestManager.Dump | src/nexosapi/endpoints/controller.py:123 | `{}` when nothing is pending, else the pending model's dump |
| EndpointsController.RequestManager.ApplyOperation | src/nexosapi/endpoints/controller.py:178-181 | pending becomes `operation(pending, *args)` and the manager is returned, so chained operations compose left to right |
| EndpointsBase.ValidatePrefix | src/nexosapi/endpoints/base.py:34-36 | passes exactly for a string with one of the five lower-case verb prefixes |
| EndpointsBase.InitSubclass | src/nexosapi/endpoints/base.py:59-64 | a missing endpoint, then the prefix, then the response model's type are checked, in that order; it passes exactly when all three hold |
| EndpointsBase.PostInit | src/nexosapi/endpoints/base.py:71-77 | passes exactly for an endpoint matching the pattern; a missing or empty one is the emptiness error |
| EndpointsBase.PostInitImpliesPrefix | src/nexosapi/endpoints/base.py:71-77 | an endpoint an instance accepts passes the class-level prefix check, while `put:/items` passes the prefix check and is refused by every instance |

## Left out

- File I/O, `ast.parse`, `ast.unparse` and `ast.fix_missing_locations` are not modelled. A file is given as presence, content and parse result, and unparsing is a function parameter.
- Logging is not modelled.
- Reflection is replaced by inputs:
  - `inspect.getsource`, `typing.get_type_hints` and `inspect.getfullargspec` on `_RequestManager` become method descriptors;
  - `get_method_ast_node` (`controllers.py:78-117`) is a node supplied in each descriptor;
  - `importlib.import_module` is an importability predicate.
- `typing.get_args` on union return hints is part of the supplied return hint.
- Mutation in place is modelled on values: a visit returns the new node. Aliasing between the `Operations` body and the returned list is not captured.
- AST detail is reduced:
  - positional-only parameters, defaults, `ctx` and call keywords are not modelled;
  - `if`, `for`, `with` and other compound statements are opaque, so their children are neither visited nor rewritten.
- `ast.get_docstring` is modelled without `inspect.cleandoc`; docstrings are taken as already clean.
- `str.upper` is modelled on ASCII letters only, with no Unicode case mapping. `str.strip` and `str.splitlines` use Python's whitespace and line-boundary characters.
- HTTP, async and dependency injection are not modelled: `send`, `on_response`, `on_error`, `call` and `__post_init__` wiring.
- `__getattr__` dispatch and its tuple comparisons, which are never true, are not modelled.
- The endpoints controller's `__post_init__` walk over `__type_params__` (`endpoints/controller.py:227-246`) is runtime reflection.
- Pydantic validation and `model_dump` are supplied functions. The `__salt` attributes are not modelled.
- The three copies of the verb and path helpers, and the two copies of `validate_endpoint`, are modelled once in `EndpointFormat`. Those copies are `endpoints/controller.py:89,99,190-207` and `endpoints/base.py:39-56`.
- `DomainModelsDictionariesWriter.run_rewrites` and `get_domain_model_stubs` are not modelled; they are directory listing and I/O orchestration. Each stub is processed by `ProcessStubFile`.
- The TypedDict writer's `exclude_classes` is an empty class-level set that nothing fills. The filters at `models.py:63` and `models.py:283` are therefore identities and are not modelled.
- The `Annotated` branch of `rewrite_type_annotation` (`models.py:112-122`) is unreachable, because the `Subscript` branch above returns first. It is not modelled.
- The parent map of `BindModelTypeTransformer` is modelled as a map between node numbers in walk order; node identity is that number.
- The isinstance check on the models map (`models.py:311-313`) is not modelled; the map is typed.
- `ControllerRewriter.RequestMakerRewriter.RunRewrites` does not model the `TypeError` for an ill-typed `additional_imports` or `stub_path`. Only `exclude_classes` can be ill-typed here. `additional_imports` is a sequence, not a set.
- `controllers.py:227` raises `IndexError` when an operation's body is empty. `ast.parse` never yields an empty function body, so `ReplaceFirst` puts the docstring first.
- The duplicate-name guard `method.name not in body` compares a string to statement nodes, so it never filters anything. It is modelled as appending every method (`controllers.py:205`, `rewrite.py:114`).
- `_is_current_controller` (`controllers.py:367`) is set but never read; it is a recorded field only.
- The override decorator added at `controllers.py:149` goes on the parsed node, which is discarded. The compiled methods carry no decorator.
- In `rewrite.py`, a parameter hint without `__name__` is not modelled; the hint's name is supplied. The `stmt.docstring` attribute it sets is dead, since `ast.unparse` never reads it.
- `class_stack` in `compile.py` is never read. The model keeps it only to prove it is restored.
- The stub drivers are not modelled: `run.py`, the `__main__` blocks, `generate_stubs_for_module`, `move_stubs_to_src` and `generate_file_tree_paths_for_directory`.
- DomainModels.FieldOf follows `annotation_contains_none` as written, so a bare `Optional[X]` field is required in every TypedDict the model emits; the intended analysis is `CorrectedFieldOf`, related to it by `CorrectedFieldOfExtends`.
- ControllerRewriter.RequestMakerRewriter.RunRewrites keeps the sticky `modified` flag of the code as written; the intended per-file decision is `CorrectedStubRun`.

## Findings

| source | as written | input that shows it | evidently intended | confidence | as-written member | corrected member |
|---|---|---|---|---|---|---|
| make/compiler/rewrites/models.py:213-239 | `annotation_contains_none` looks only at a subscript's slice, never at its head, so `Optional[X]` counts as containing `None` only when `X` does | a model field `x: Optional[int]` with no default is emitted as a required TypedDict key | `Optional[...]` admits `None`, as the comment on line 214 says | not executed | ModelAnnotations.OptionalIsMissed | ModelAnnotations.AdmitsNoneExtends |
| make/compiler/rewrites/controllers.py:73 | `apply` (`base.py:42-47`) reuses one rewriter for every stub, and `run_rewrites` never resets `modified` | a stub with an `Operations` class, then a stub without one: the second is rewritten too, with its imports injected | the flag is reset for each file, as the fresh rewriter per file in `rewrite.py:233` and `compile.py:104` does | not executed | ControllerRewriter.StickyModifiedRewritesCleanFile | ControllerRewriter.CorrectedRunWritesOnlyOperations |
