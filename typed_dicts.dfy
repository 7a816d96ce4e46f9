/**
 * `DomainModelsDictionariesWriter`: reads the domain-model stubs, collects
 * the fields of every pydantic model class, writes a `<Model>Data`
 * TypedDict for each model into the stub, and maps every model to its
 * TypedDict and the module it can be imported from.
 */
module DomainModels {
  import opened Wrappers
  import opened Text
  import opened StubAst
  import opened OrderedMaps
  import opened ModelAnnotations
  import opened StubPaths

  /** The base classes that make a class a domain model. */
  const RecognizedBases: set<string> := {"BaseModel", "NullableBaseModel", "NexosAPIRequest", "NexosAPIResponse"}

  predicate IsModelBase(b: Expr) {
    b.Name? && b.id in RecognizedBases
  }

  /** A class with at least one plain-name base among the recognised ones. */
  predicate IsModelClass(s: Stmt) {
    s.ClassDef? && exists k :: 0 <= k < |s.bases| && IsModelBase(s.bases[k])
  }

  /** One `(field_name, is_optional)` pair. */
  datatype Field = Field(name: string, optional: bool)

  /**
   * An annotated assignment to a plain name is a field; it is optional when
   * it has a value or `annotation_contains_none` holds, so a bare
   * `Optional[X]` field is required.
   */
  function FieldOf(s: Stmt): Option<Field> {
    if s.AnnAssign? && s.target.Name? then
      Some(Field(s.target.id, s.initial.Some? || AnnotationContainsNone(s.annotation)))
    else None
  }

  /** The field as the intended analysis would report it: `Optional[...]` also makes it optional. */
  function CorrectedFieldOf(s: Stmt): Option<Field> {
    if s.AnnAssign? && s.target.Name? then
      Some(Field(s.target.id, s.initial.Some? || AnnotationAdmitsNone(s.annotation)))
    else None
  }

  /**
   * The corrected field differs from the one the code reports only by
   * turning a required field optional, and only when an `Optional[...]` is
   * in view of the analysis.
   */
  lemma CorrectedFieldOfExtends(s: Stmt)
    ensures FieldOf(s).Some? <==> CorrectedFieldOf(s).Some?
    ensures FieldOf(s).Some? ==> CorrectedFieldOf(s).value.name == FieldOf(s).value.name
                                 && (FieldOf(s).value.optional ==> CorrectedFieldOf(s).value.optional)
    ensures FieldOf(s).Some? && !MentionsOptional(s.annotation) ==> CorrectedFieldOf(s) == FieldOf(s)
  {
    if s.AnnAssign? && s.target.Name? {
      AdmitsNoneExtends(s.annotation);
      if !MentionsOptional(s.annotation) {
        AgreeWithoutOptional(s.annotation);
      }
    }
  }

  /** The fields of a class body, in source order. */
  function FieldsOf(body: seq<Stmt>): seq<Field> {
    if body == [] then []
    else
      FieldsOf(body[..|body| - 1]) + match FieldOf(body[|body| - 1]) case Some(f) => [f] case None => []
  }

  /** The models of a module: every model class in order, a repeated name keeping its first place and its last fields. */
  function ModelsOf(tree: Module): Dict<seq<Field>> {
    if tree == [] then []
    else
      var d := ModelsOf(tree[..|tree| - 1]);
      var s := tree[|tree| - 1];
      if IsModelClass(s) then Put(d, s.name, FieldsOf(s.body)) else d
  }

  /** Fields are collected statement by statement, so a body's fields are those of its parts in order. */
  lemma {:induction false} FieldsOfAppend(a: seq<Stmt>, b: seq<Stmt>)
    ensures FieldsOf(a + b) == FieldsOf(a) + FieldsOf(b)
    decreases |b|
  {
    if b == [] {
      assert a + b == a;
    } else {
      var ab := a + b;
      assert ab[..|ab| - 1] == a + b[..|b| - 1];
      assert ab[|ab| - 1] == b[|b| - 1];
      FieldsOfAppend(a, b[..|b| - 1]);
    }
  }

  /** A field is reported exactly when some statement of the body declares it. */
  lemma {:induction false} FieldsOfMembers(body: seq<Stmt>, f: Field)
    ensures f in FieldsOf(body) <==> exists i :: 0 <= i < |body| && FieldOf(body[i]) == Some(f)
  {
    if body != [] {
      var init := body[..|body| - 1];
      FieldsOfMembers(init, f);
      if exists i :: 0 <= i < |init| && FieldOf(init[i]) == Some(f) {
        var i :| 0 <= i < |init| && FieldOf(init[i]) == Some(f);
        assert body[i] == init[i];
      }
      if i :| 0 <= i < |body| - 1 && FieldOf(body[i]) == Some(f) {
        assert init[i] == body[i];
      }
    }
  }

  /**
   * `x: int` and `x: Optional[str]` are required; `x: int = 0`,
   * `x: Optional[str] = None` and `x: str | None` are optional; other
   * statements are no fields. The corrected analysis makes `x: Optional[str]`
   * optional.
   */
  lemma FieldExamples()
    ensures FieldOf(AnnAssign(Name("x"), Name("int"), None)) == Some(Field("x", false))
    ensures FieldOf(AnnAssign(Name("x"), Name("int"), Some(Constant(OtherLiteral("0"))))) == Some(Field("x", true))
    ensures FieldOf(AnnAssign(Name("x"), BinOp(Name("str"), BitOr, Constant(NoneLiteral)), None)) == Some(Field("x", true))
    ensures FieldOf(AnnAssign(Name("x"), Subscript(Name("Optional"), Name("str")), None)) == Some(Field("x", false))
    ensures FieldOf(AnnAssign(Name("x"), Subscript(Name("Optional"), Name("str")), Some(Constant(NoneLiteral))))
            == Some(Field("x", true))
    ensures CorrectedFieldOf(AnnAssign(Name("x"), Subscript(Name("Optional"), Name("str")), None)) == Some(Field("x", true))
    ensures FieldOf(AnnAssign(Attribute(Name("self"), "x"), Name("int"), None)) == None
    ensures FieldOf(Assign([Name("x")], Constant(NoneLiteral))) == None
  {
  }

  /** Exactly the model classes are reported, under their class names. */
  lemma {:induction false} ModelsOfKeys(tree: Module, name: string)
    ensures name in Keys(ModelsOf(tree)) <==>
              exists i :: 0 <= i < |tree| && IsModelClass(tree[i]) && tree[i].name == name
  {
    if tree != [] {
      var init := tree[..|tree| - 1];
      ModelsOfKeys(init, name);
      if exists i :: 0 <= i < |init| && IsModelClass(init[i]) && init[i].name == name {
        var i :| 0 <= i < |init| && IsModelClass(init[i]) && init[i].name == name;
        assert tree[i] == init[i];
      }
      if i :| 0 <= i < |tree| - 1 && IsModelClass(tree[i]) && tree[i].name == name {
        assert init[i] == tree[i];
      }
    }
  }

  /** A reported model carries the fields of the last model class of that name. */
  lemma {:induction false} ModelsOfFields(tree: Module, name: string) returns (i: nat)
    requires name in Keys(ModelsOf(tree))
    ensures i < |tree| && IsModelClass(tree[i]) && tree[i].name == name
    ensures Get(ModelsOf(tree), name) == Some(FieldsOf(tree[i].body))
    ensures forall j :: i < j < |tree| ==> !(IsModelClass(tree[j]) && tree[j].name == name)
  {
    var init := tree[..|tree| - 1];
    var s := tree[|tree| - 1];
    var d := ModelsOf(init);
    if IsModelClass(s) {
      PutGet(d, s.name, FieldsOf(s.body), name);
    }
    if IsModelClass(s) && s.name == name {
      i := |tree| - 1;
    } else {
      assert Get(ModelsOf(tree), name) == Get(d, name);
      i := ModelsOfFields(init, name);
      assert tree[i] == init[i];
      forall j | i < j < |tree| ensures !(IsModelClass(tree[j]) && tree[j].name == name) {
        if j < |tree| - 1 {
          assert tree[j] == init[j];
        }
      }
    }
  }

  /** Statements that are not model classes do not change what is reported. */
  lemma {:induction false} ModelsIgnoreOthers(tree: Module, extra: Module)
    requires forall k :: 0 <= k < |extra| ==> !IsModelClass(extra[k])
    ensures ModelsOf(tree + extra) == ModelsOf(tree)
    decreases |extra|
  {
    if extra == [] {
      assert tree + extra == tree;
    } else {
      var all := tree + extra;
      assert all[..|all| - 1] == tree + extra[..|extra| - 1];
      assert all[|all| - 1] == extra[|extra| - 1];
      ModelsIgnoreOthers(tree, extra[..|extra| - 1]);
    }
  }

  /** The class statement of a generated TypedDict, whose base `typing.TypedDict` is an attribute. */
  function TypedDictClass(model: string, body: seq<Stmt>): Stmt {
    ClassDef(model + "Data", [Attribute(Name("typing"), "TypedDict")], [], body)
  }

  /** A stub that has received its TypedDicts reports the same models as before. */
  lemma TypedDictsAreNotModels(tree: Module, classes: Module)
    requires forall k :: 0 <= k < |classes| ==> classes[k].ClassDef? && classes[k].bases == [Attribute(Name("typing"), "TypedDict")]
    ensures ModelsOf(tree + classes) == ModelsOf(tree)
  {
    forall k | 0 <= k < |classes| ensures !IsModelClass(classes[k]) {
      assert !IsModelBase(classes[k].bases[0]);
    }
    ModelsIgnoreOthers(tree, classes);
  }

  /**
   * `extract_base_models_definitions(content)`, given the parse of the
   * content (`None` for a `SyntaxError`, which yields no models).
   */
  method ExtractBaseModelsDefinitions(tree: Option<Module>) returns (models: Dict<seq<Field>>)
    ensures tree.None? ==> models == []
    ensures tree.Some? ==> models == ModelsOf(tree.value)
  {
    if tree.None? {
      return [];
    }
    var body := tree.value;
    models := [];
    var i := 0;
    while i < |body|
      invariant 0 <= i <= |body|
      invariant models == ModelsOf(body[..i])
    {
      var node := body[i];
      assert body[..i + 1][..i] == body[..i];
      if node.ClassDef? && exists k :: 0 <= k < |node.bases| && IsModelBase(node.bases[k]) {
        var fields := [];
        var j := 0;
        while j < |node.body|
          invariant 0 <= j <= |node.body|
          invariant fields == FieldsOf(node.body[..j])
        {
          var stmt := node.body[j];
          assert node.body[..j + 1][..j] == node.body[..j];
          if stmt.AnnAssign? && stmt.target.Name? {
            var optional := stmt.initial.Some?;
            if AnnotationContainsNone(stmt.annotation) {
              optional := true;
            }
            fields := fields + [Field(stmt.target.id, optional)];
          }
          j := j + 1;
        }
        assert node.body[..j] == node.body;
        models := Put(models, node.name, fields);
      }
      i := i + 1;
    }
    assert body[..i] == body;
  }

  /** One domain-model stub: where it is, its text, and its parse (`None` for a `SyntaxError`). */
  datatype StubFile = StubFile(path: Path, content: string, tree: Option<Module>)

  /** The first annotation of `field` declared as `field: T` in a class body. */
  function ClassFieldAnnotation(body: seq<Stmt>, field: string): (r: Option<Expr>)
    ensures r.Some? ==> exists i :: 0 <= i < |body| && body[i].AnnAssign? && body[i].target == Name(field)
                                    && body[i].annotation == r.value
    ensures r.None? <==> forall i :: 0 <= i < |body| ==> !(body[i].AnnAssign? && body[i].target == Name(field))
  {
    if body == [] then None
    else if body[0].AnnAssign? && body[0].target == Name(field) then Some(body[0].annotation)
    else
      var r := ClassFieldAnnotation(body[1..], field);
      assert forall i :: 1 <= i < |body| ==> body[i] == body[1..][i - 1];
      r
  }

  /** The first top-level class named `model` that declares `field`. */
  function ModuleFieldAnnotation(tree: Module, model: string, field: string): (r: Option<Expr>)
    ensures r.Some? ==> exists i :: 0 <= i < |tree| && tree[i].ClassDef? && tree[i].name == model
                                    && ClassFieldAnnotation(tree[i].body, field) == r
  {
    if tree == [] then None
    else if tree[0].ClassDef? && tree[0].name == model && ClassFieldAnnotation(tree[0].body, field).Some? then
      ClassFieldAnnotation(tree[0].body, field)
    else
      var r := ModuleFieldAnnotation(tree[1..], model, field);
      assert forall i :: 1 <= i < |tree| ==> tree[i] == tree[1..][i - 1];
      r
  }

  /** `_get_field_annotation_as_string` before unparsing: the first stub, in order, that parses and declares the field. */
  function FieldAnnotation(stubs: seq<StubFile>, model: string, field: string): (r: Option<Expr>)
    ensures r.Some? ==> exists k :: 0 <= k < |stubs| && stubs[k].tree.Some?
                                    && ModuleFieldAnnotation(stubs[k].tree.value, model, field) == r
  {
    if stubs == [] then None
    else if stubs[0].tree.Some? && ModuleFieldAnnotation(stubs[0].tree.value, model, field).Some? then
      ModuleFieldAnnotation(stubs[0].tree.value, model, field)
    else
      var r := FieldAnnotation(stubs[1..], model, field);
      assert forall k :: 1 <= k < |stubs| ==> stubs[k] == stubs[1..][k - 1];
      r
  }

  function AnyType(qualified: bool): string {
    if qualified then "typing.Any" else "Any"
  }

  function NotRequiredMarker(qualified: bool): string {
    if qualified then "typing.NotRequired" else "NotRequired"
  }

  function TypedDictBase(qualified: bool): string {
    if qualified then "typing.TypedDict" else "TypedDict"
  }

  /**
   * The declared type of one field: the annotation found in the stubs,
   * unparsed, parsed again, renamed to `...Data` records and unparsed; the
   * any-type when it is missing or does not parse.
   */
  function AnnotationCode(stubs: seq<StubFile>, unparse: Expr -> string, parseExpr: string -> Option<Expr>,
                          model: string, field: string, names: set<string>, qualified: bool): string
  {
    CodeOf(unparse, parseExpr, FieldAnnotation(stubs, model, field), names, qualified)
  }

  /** The declared type for an annotation that was found, or not. */
  function CodeOf(unparse: Expr -> string, parseExpr: string -> Option<Expr>, found: Option<Expr>,
                  names: set<string>, qualified: bool): string
  {
    match found
    case None => AnyType(qualified)
    case Some(ann) =>
      match parseExpr(unparse(ann))
      case None => AnyType(qualified)
      case Some(tree) => unparse(RewriteTypeAnnotation(tree, names))
  }

  function FieldLine(f: Field, code: string, qualified: bool): string {
    "    " + f.name + ": " + if f.optional then NotRequiredMarker(qualified) + "[" + code + "]" else code
  }

  function Header(model: string, qualified: bool): string {
    "class " + model + "Data(" + TypedDictBase(qualified) + "):"
  }

  /** The declared type of every field, in order. */
  function FieldCodes(stubs: seq<StubFile>, unparse: Expr -> string, parseExpr: string -> Option<Expr>,
                      model: string, fields: seq<Field>, names: set<string>, qualified: bool): (r: seq<string>)
    ensures |r| == |fields|
    ensures forall k :: 0 <= k < |fields| ==> r[k] == AnnotationCode(stubs, unparse, parseExpr, model, fields[k].name, names, qualified)
  {
    seq(|fields|, k requires 0 <= k < |fields| => AnnotationCode(stubs, unparse, parseExpr, model, fields[k].name, names, qualified))
  }

  /** One line per field, with the given field types. */
  function FieldLines(fields: seq<Field>, codes: seq<string>, qualified: bool): (r: seq<string>)
    requires |codes| == |fields|
    ensures |r| == |fields|
  {
    seq(|fields|, k requires 0 <= k < |fields| => FieldLine(fields[k], codes[k], qualified))
  }

  lemma FieldLinesSnoc(fields: seq<Field>, codes: seq<string>, qualified: bool, j: nat)
    requires |codes| == |fields| && j < |fields|
    ensures FieldLines(fields[..j + 1], codes[..j + 1], qualified)
            == FieldLines(fields[..j], codes[..j], qualified) + [FieldLine(fields[j], codes[j], qualified)]
  {
    var a := FieldLines(fields[..j + 1], codes[..j + 1], qualified);
    var b := FieldLines(fields[..j], codes[..j], qualified) + [FieldLine(fields[j], codes[j], qualified)];
    forall k | 0 <= k < |a| ensures a[k] == b[k] {
      if k < j {
        assert fields[..j + 1][k] == fields[..j][k] && codes[..j + 1][k] == codes[..j][k];
      }
    }
  }

  lemma AppendAssoc<T>(a: seq<T>, b: seq<T>, c: seq<T>)
    ensures (a + b) + c == a + (b + c)
  {
  }

  /** The lines of a TypedDict for the given field types: the header, then `pass` or one line per field. */
  function LinesOf(model: string, fields: seq<Field>, codes: seq<string>, qualified: bool): seq<string>
    requires |codes| == |fields|
  {
    [Header(model, qualified)] + if fields == [] then ["    pass"] else FieldLines(fields, codes, qualified)
  }

  /** The lines of one model's TypedDict. */
  function TypedDictLines(stubs: seq<StubFile>, unparse: Expr -> string, parseExpr: string -> Option<Expr>,
                          model: string, fields: seq<Field>, names: set<string>, qualified: bool): seq<string>
  {
    LinesOf(model, fields, FieldCodes(stubs, unparse, parseExpr, model, fields, names, qualified), qualified)
  }

  function TypedDictSource(stubs: seq<StubFile>, unparse: Expr -> string, parseExpr: string -> Option<Expr>,
                           model: string, fields: seq<Field>, names: set<string>, qualified: bool): string
  {
    Join(TypedDictLines(stubs, unparse, parseExpr, model, fields, names, qualified), "\n")
  }

  /** No text `unparse` produces spans two lines. */
  ghost predicate SingleLineUnparse(unparse: Expr -> string) {
    forall e :: '\n' !in unparse(e)
  }

  lemma AnnotationCodeSingleLine(stubs: seq<StubFile>, unparse: Expr -> string, parseExpr: string -> Option<Expr>,
                                 model: string, field: string, names: set<string>, qualified: bool)
    requires SingleLineUnparse(unparse)
    ensures '\n' !in AnnotationCode(stubs, unparse, parseExpr, model, field, names, qualified)
  {
    CodeOfSingleLine(unparse, parseExpr, FieldAnnotation(stubs, model, field), names, qualified);
  }

  lemma CodeOfSingleLine(unparse: Expr -> string, parseExpr: string -> Option<Expr>, found: Option<Expr>,
                         names: set<string>, qualified: bool)
    requires SingleLineUnparse(unparse)
    ensures '\n' !in CodeOf(unparse, parseExpr, found, names, qualified)
  {
    if found.Some? && parseExpr(unparse(found.value)).Some? {
      var tree := RewriteTypeAnnotation(parseExpr(unparse(found.value)).value, names);
      assert '\n' !in unparse(tree);
    }
  }

  lemma FieldLineSingleLine(f: Field, code: string, qualified: bool)
    requires '\n' !in f.name && '\n' !in code
    ensures '\n' !in FieldLine(f, code, qualified)
  {
  }

  lemma LinesOfSingleLine(model: string, fields: seq<Field>, codes: seq<string>, qualified: bool)
    requires |codes| == |fields|
    requires '\n' !in model
    requires forall k :: 0 <= k < |fields| ==> '\n' !in fields[k].name && '\n' !in codes[k]
    ensures var lines := LinesOf(model, fields, codes, qualified);
            forall k :: 0 <= k < |lines| ==> '\n' !in lines[k]
  {
    var lines := LinesOf(model, fields, codes, qualified);
    HeaderSingleLine(model, qualified);
    if fields == [] {
      assert lines == [Header(model, qualified), "    pass"];
    } else {
      var body := FieldLines(fields, codes, qualified);
      assert lines == [Header(model, qualified)] + body;
      forall k | 0 <= k < |body| ensures '\n' !in body[k] {
        FieldLineSingleLine(fields[k], codes[k], qualified);
      }
      forall k | 0 <= k < |lines| ensures '\n' !in lines[k] {
        if k > 0 {
          assert lines[k] == body[k - 1];
        }
      }
    }
  }

  lemma HeaderSingleLine(model: string, qualified: bool)
    requires '\n' !in model
    ensures '\n' !in Header(model, qualified)
  {
    assert '\n' !in TypedDictBase(qualified);
  }

  /** With `unparse` single-line, each emitted line is one line of text. */
  lemma LinesSingleLine(stubs: seq<StubFile>, unparse: Expr -> string, parseExpr: string -> Option<Expr>,
                        model: string, fields: seq<Field>, names: set<string>, qualified: bool)
    requires SingleLineUnparse(unparse)
    requires '\n' !in model && forall k :: 0 <= k < |fields| ==> '\n' !in fields[k].name
    ensures var lines := TypedDictLines(stubs, unparse, parseExpr, model, fields, names, qualified);
            forall k :: 0 <= k < |lines| ==> '\n' !in lines[k]
  {
    var codes := FieldCodes(stubs, unparse, parseExpr, model, fields, names, qualified);
    forall k | 0 <= k < |fields| ensures '\n' !in codes[k] {
      AnnotationCodeSingleLine(stubs, unparse, parseExpr, model, fields[k].name, names, qualified);
    }
    LinesOfSingleLine(model, fields, codes, qualified);
  }

  /** The lines for given field types, position by position. */
  lemma LinesOfShape(model: string, fields: seq<Field>, codes: seq<string>, qualified: bool)
    requires |codes| == |fields|
    ensures var lines := LinesOf(model, fields, codes, qualified);
            lines[0] == Header(model, qualified)
            && (fields == [] ==> lines == [lines[0], "    pass"])
            && (fields != [] ==>
                  |lines| == |fields| + 1
                  && forall k :: 0 <= k < |fields| ==> lines[k + 1] == FieldLine(fields[k], codes[k], qualified))
  {
  }

  lemma TypedDictLinesShape(stubs: seq<StubFile>, unparse: Expr -> string, parseExpr: string -> Option<Expr>,
                            model: string, fields: seq<Field>, names: set<string>)
    ensures var lines := TypedDictLines(stubs, unparse, parseExpr, model, fields, names, true);
            lines[0] == "class " + model + "Data(typing.TypedDict):"
            && (fields == [] ==> lines == [lines[0], "    pass"])
            && (fields != [] ==>
                  (|lines| == |fields| + 1
                   && forall k :: 0 <= k < |fields| ==>
                        var code := AnnotationCode(stubs, unparse, parseExpr, model, fields[k].name, names, true);
                        lines[k + 1] == "    " + fields[k].name + ": "
                                        + (if fields[k].optional then "typing.NotRequired[" + code + "]" else code)
                        && (FieldAnnotation(stubs, model, fields[k].name).None? ==> code == "typing.Any")))
  {
    var codes := FieldCodes(stubs, unparse, parseExpr, model, fields, names, true);
    LinesOfShape(model, fields, codes, true);
    HeaderQualified(model);
    forall k | 0 <= k < |fields|
      ensures FieldLine(fields[k], codes[k], true)
              == "    " + fields[k].name + ": " + (if fields[k].optional then "typing.NotRequired[" + codes[k] + "]" else codes[k])
    {
      FieldLineQualified(fields[k], codes[k]);
    }
  }

  lemma HeaderQualified(model: string)
    ensures Header(model, true) == "class " + model + "Data(typing.TypedDict):"
  {
    assert "Data(" + "typing.TypedDict" + "):" == "Data(typing.TypedDict):";
    assert Header(model, true) == "class " + model + ("Data(" + "typing.TypedDict" + "):");
  }

  lemma FieldLineQualified(f: Field, code: string)
    ensures FieldLine(f, code, true)
            == "    " + f.name + ": " + (if f.optional then "typing.NotRequired[" + code + "]" else code)
  {
    if f.optional {
      assert "typing.NotRequired" + "[" == "typing.NotRequired[";
    }
  }

  /**
   * Read back line by line, a generated TypedDict has the header
   * `class <Model>Data(typing.TypedDict):` and then `    pass` for a model
   * without fields, or one `    <name>: <type>` line per field in order,
   * the type wrapped in `typing.NotRequired[...]` for an optional field and
   * `typing.Any` when the annotation is missing.
   */
  lemma TypedDictSourceLines(stubs: seq<StubFile>, unparse: Expr -> string, parseExpr: string -> Option<Expr>,
                             model: string, fields: seq<Field>, names: set<string>)
    requires SingleLineUnparse(unparse)
    requires '\n' !in model && forall k :: 0 <= k < |fields| ==> '\n' !in fields[k].name
    ensures var lines := Split(TypedDictSource(stubs, unparse, parseExpr, model, fields, names, true), '\n');
            lines[0] == "class " + model + "Data(typing.TypedDict):"
            && (fields == [] ==> lines == [lines[0], "    pass"])
            && (fields != [] ==>
                  (|lines| == |fields| + 1
                   && forall k :: 0 <= k < |fields| ==>
                        var code := AnnotationCode(stubs, unparse, parseExpr, model, fields[k].name, names, true);
                        lines[k + 1] == "    " + fields[k].name + ": "
                                        + (if fields[k].optional then "typing.NotRequired[" + code + "]" else code)
                        && (FieldAnnotation(stubs, model, fields[k].name).None? ==> code == "typing.Any")))
  {
    LinesSingleLine(stubs, unparse, parseExpr, model, fields, names, true);
    SplitJoin(TypedDictLines(stubs, unparse, parseExpr, model, fields, names, true), '\n');
    TypedDictLinesShape(stubs, unparse, parseExpr, model, fields, names);
  }

  /**
   * `_process_stub_file`'s append step: the content without trailing
   * blanks, then each source the ORIGINAL content does not already
   * contain, each behind an empty line.
   */
  function AppendMissing(content: string, srcs: seq<string>): string {
    if srcs == [] then RStrip(content)
    else
      var prev := AppendMissing(content, srcs[..|srcs| - 1]);
      var s := srcs[|srcs| - 1];
      if Contains(content, s) then prev else prev + "\n\n" + s
  }

  /** A source that is not blank and ends in a visible character. */
  predicate EndsVisible(s: string) {
    s != [] && !IsSpace(s[|s| - 1])
  }

  lemma {:induction false} AppendMissingPrefix(content: string, srcs: seq<string>)
    ensures RStrip(content) <= AppendMissing(content, srcs)
  {
    if srcs != [] {
      AppendMissingPrefix(content, srcs[..|srcs| - 1]);
    }
  }

  lemma {:induction false} AppendMissingEnd(content: string, srcs: seq<string>)
    requires forall k :: 0 <= k < |srcs| ==> EndsVisible(srcs[k])
    ensures var n := AppendMissing(content, srcs); n == [] || !IsSpace(n[|n| - 1])
  {
    if srcs != [] {
      var init := srcs[..|srcs| - 1];
      var s := srcs[|srcs| - 1];
      if Contains(content, s) {
        assert forall k :: 0 <= k < |init| ==> init[k] == srcs[k];
        AppendMissingEnd(content, init);
      } else {
        var n := AppendMissing(content, init) + "\n\n" + s;
        assert EndsVisible(s);
        assert n[|n| - 1] == s[|s| - 1];
      }
    }
  }

  /** Appending one more source only extends the text, and the new source is then present. */
  lemma AppendMissingLast(content: string, init: seq<string>, s: string)
    requires EndsVisible(s)
    ensures AppendMissing(content, init) <= AppendMissing(content, init + [s])
    ensures Contains(AppendMissing(content, init + [s]), s)
  {
    var srcs := init + [s];
    assert srcs[..|srcs| - 1] == init && srcs[|srcs| - 1] == s;
    var prev := AppendMissing(content, init);
    var n := AppendMissing(content, srcs);
    AppendMissingPrefix(content, init);
    if Contains(content, s) {
      assert n == prev;
      var base := RStrip(content);
      RStripKeeps(content, s);
      assert prev == base + prev[|base|..];
      ContainsPrefix(base, prev[|base|..], s);
    } else {
      assert n == prev + ("\n\n" + s);
      ContainsSelf(s);
      ContainsSuffix(prev + "\n\n", s, s);
      assert prev + "\n\n" + s == prev + ("\n\n" + s);
    }
  }

  lemma {:induction false} AppendMissingContains(content: string, srcs: seq<string>)
    requires forall k :: 0 <= k < |srcs| ==> EndsVisible(srcs[k])
    ensures forall k :: 0 <= k < |srcs| ==> Contains(AppendMissing(content, srcs), srcs[k])
  {
    if srcs != [] {
      var init := srcs[..|srcs| - 1];
      var s := srcs[|srcs| - 1];
      assert srcs == init + [s];
      assert forall k :: 0 <= k < |init| ==> init[k] == srcs[k];
      AppendMissingContains(content, init);
      var prev := AppendMissing(content, init);
      var n := AppendMissing(content, srcs);
      AppendMissingLast(content, init, s);
      assert n == prev + n[|prev|..];
      forall k | 0 <= k < |srcs| ensures Contains(n, srcs[k]) {
        if k < |init| {
          ContainsPrefix(prev, n[|prev|..], init[k]);
        }
      }
    }
  }


  lemma RStripVisibleEnd(n: string)
    requires n == [] || !IsSpace(n[|n| - 1])
    ensures RStrip(n) == n
  {
    var r := RStrip(n);
    if n != [] {
      assert !IsSpace(n[|n| - 1]);
      assert |r| == |n|;
    }
  }

  lemma {:induction false} AppendContained(content: string, srcs: seq<string>)
    requires forall k :: 0 <= k < |srcs| ==> Contains(content, srcs[k])
    ensures AppendMissing(content, srcs) == RStrip(content)
  {
    if srcs != [] {
      var init := srcs[..|srcs| - 1];
      assert forall k :: 0 <= k < |init| ==> init[k] == srcs[k];
      AppendContained(content, init);
    }
  }

  /** Appending to its own output appends nothing and leaves the text as it is. */
  lemma AppendMissingIdempotent(content: string, srcs: seq<string>)
    requires forall k :: 0 <= k < |srcs| ==> EndsVisible(srcs[k])
    ensures AppendMissing(AppendMissing(content, srcs), srcs) == AppendMissing(content, srcs)
  {
    var n := AppendMissing(content, srcs);
    AppendMissingContains(content, srcs);
    AppendMissingEnd(content, srcs);
    AppendContained(n, srcs);
    RStripVisibleEnd(n);
  }

  /** The typed-dict sources for every model, in the dictionary's order. */
  function Sources(stubs: seq<StubFile>, unparse: Expr -> string, parseExpr: string -> Option<Expr>,
                   models: Dict<seq<Field>>, names: set<string>, qualified: bool): seq<string>
  {
    seq(|models|, k requires 0 <= k < |models| =>
          TypedDictSource(stubs, unparse, parseExpr, models[k].key, models[k].value, names, qualified))
  }

  lemma AnnotationCodeEndsVisible(stubs: seq<StubFile>, unparse: Expr -> string, parseExpr: string -> Option<Expr>,
                                  model: string, field: string, names: set<string>, qualified: bool)
    requires forall e :: EndsVisible(unparse(e))
    ensures EndsVisible(AnnotationCode(stubs, unparse, parseExpr, model, field, names, qualified))
  {
    CodeOfEndsVisible(unparse, parseExpr, FieldAnnotation(stubs, model, field), names, qualified);
  }

  lemma CodeOfEndsVisible(unparse: Expr -> string, parseExpr: string -> Option<Expr>, found: Option<Expr>,
                          names: set<string>, qualified: bool)
    requires forall e :: EndsVisible(unparse(e))
    ensures EndsVisible(CodeOf(unparse, parseExpr, found, names, qualified))
  {
    if found.Some? && parseExpr(unparse(found.value)).Some? {
      var tree := RewriteTypeAnnotation(parseExpr(unparse(found.value)).value, names);
      assert EndsVisible(unparse(tree));
    }
  }

  lemma EndsVisibleConcat(a: string, b: string)
    requires EndsVisible(b)
    ensures EndsVisible(a + b)
  {
    assert (a + b)[|a + b| - 1] == b[|b| - 1];
  }

  lemma FieldLineEndsVisible(f: Field, code: string, qualified: bool)
    requires EndsVisible(code)
    ensures EndsVisible(FieldLine(f, code, qualified))
  {
    var head := "    " + f.name + ": ";
    if f.optional {
      EndsVisibleConcat(head + NotRequiredMarker(qualified) + "[" + code, "]");
      assert head + (NotRequiredMarker(qualified) + "[" + code + "]") == head + NotRequiredMarker(qualified) + "[" + code + "]";
    } else {
      EndsVisibleConcat(head, code);
    }
  }

  lemma LinesOfLastEndsVisible(model: string, fields: seq<Field>, codes: seq<string>, qualified: bool)
    requires |codes| == |fields|
    requires fields != [] ==> EndsVisible(codes[|codes| - 1])
    ensures var lines := LinesOf(model, fields, codes, qualified);
            |lines| >= 1 && EndsVisible(lines[|lines| - 1])
  {
    var lines := LinesOf(model, fields, codes, qualified);
    if fields != [] {
      var k := |fields| - 1;
      FieldLineEndsVisible(fields[k], codes[k], qualified);
      assert lines[k + 1] == FieldLine(fields[k], codes[k], qualified);
    } else {
      assert lines == [Header(model, qualified), "    pass"];
      assert lines[1][7] == 's';
    }
  }

  lemma EndsVisibleSuffix(j: string, last: string)
    requires |last| <= |j| && j[|j| - |last|..] == last && EndsVisible(last)
    ensures EndsVisible(j)
  {
    assert j[|j| - 1] == j[|j| - |last|..][|last| - 1];
  }

  lemma TypedDictSourceEndsVisible(stubs: seq<StubFile>, unparse: Expr -> string, parseExpr: string -> Option<Expr>,
                                   model: string, fields: seq<Field>, names: set<string>, qualified: bool)
    requires forall e :: EndsVisible(unparse(e))
    ensures EndsVisible(TypedDictSource(stubs, unparse, parseExpr, model, fields, names, qualified))
  {
    var codes := FieldCodes(stubs, unparse, parseExpr, model, fields, names, qualified);
    var lines := LinesOf(model, fields, codes, qualified);
    if fields != [] {
      AnnotationCodeEndsVisible(stubs, unparse, parseExpr, model, fields[|fields| - 1].name, names, qualified);
    }
    LinesOfLastEndsVisible(model, fields, codes, qualified);
    JoinEndsVisible(lines, "\n");
  }

  lemma JoinEndsVisible(parts: seq<string>, sep: string)
    requires |parts| >= 1 && EndsVisible(parts[|parts| - 1])
    ensures EndsVisible(Join(parts, sep))
  {
    JoinLastLine(parts, sep);
    EndsVisibleSuffix(Join(parts, sep), parts[|parts| - 1]);
  }

  /** Every generated source ends in a visible character when `unparse` never ends in a blank. */
  lemma SourcesEndVisible(stubs: seq<StubFile>, unparse: Expr -> string, parseExpr: string -> Option<Expr>,
                          models: Dict<seq<Field>>, names: set<string>, qualified: bool)
    requires forall e :: EndsVisible(unparse(e))
    ensures var srcs := Sources(stubs, unparse, parseExpr, models, names, qualified);
            forall k :: 0 <= k < |srcs| ==> EndsVisible(srcs[k])
  {
    forall k | 0 <= k < |models|
      ensures EndsVisible(TypedDictSource(stubs, unparse, parseExpr, models[k].key, models[k].value, names, qualified))
    {
      TypedDictSourceEndsVisible(stubs, unparse, parseExpr, models[k].key, models[k].value, names, qualified);
    }
  }

  /**
   * Processing a stub a second time, when its parse is the first parse
   * plus the generated TypedDict classes, writes nothing: the same models
   * are found and every source is already there.
   */
  lemma ProcessStubFileIdempotent(stubs: seq<StubFile>, unparse: Expr -> string, parseExpr: string -> Option<Expr>,
                                  content: string, tree: Module, classes: Module)
    requires forall e :: EndsVisible(unparse(e))
    requires forall k :: 0 <= k < |classes| ==> classes[k].ClassDef? && classes[k].bases == [Attribute(Name("typing"), "TypedDict")]
    ensures var models := ModelsOf(tree);
            var once := AppendMissing(content, Sources(stubs, unparse, parseExpr, models, Keys(models), true));
            var models2 := ModelsOf(tree + classes);
            AppendMissing(once, Sources(stubs, unparse, parseExpr, models2, Keys(models2), true)) == once
  {
    TypedDictsAreNotModels(tree, classes);
    var models := ModelsOf(tree);
    SourcesEndVisible(stubs, unparse, parseExpr, models, Keys(models), true);
    AppendMissingIdempotent(content, Sources(stubs, unparse, parseExpr, models, Keys(models), true));
  }

  /** A join ends with its last part. */
  lemma {:induction false} JoinLastLine(parts: seq<string>, sep: string)
    requires |parts| >= 1
    ensures var j := Join(parts, sep); var last := parts[|parts| - 1];
            |last| <= |j| && j[|j| - |last|..] == last
  {
    if |parts| > 1 {
      JoinLastLine(parts[1..], sep);
      var j := Join(parts, sep);
      var rest := Join(parts[1..], sep);
      assert j == parts[0] + sep + rest;
      assert j[|j| - |rest|..] == rest;
    }
  }

  /**
   * The writer's state: the domain-model stubs and their root (set when
   * `run_rewrites` starts) and the `modified` flag; parsing, unparsing and
   * importability are given functions.
   */
  class DomainModelsWriter {
    var stubs: seq<StubFile>
    var root: Option<Path>
    var modified: bool
    const unparse: Expr -> string
    const parseExpr: string -> Option<Expr>
    const importable: string -> bool

    constructor (stubs: seq<StubFile>, root: Option<Path>, unparse: Expr -> string,
                 parseExpr: string -> Option<Expr>, importable: string -> bool)
      ensures this.stubs == stubs && this.root == root && !modified
      ensures this.unparse == unparse && this.parseExpr == parseExpr && this.importable == importable
    {
      this.stubs := stubs;
      this.root := root;
      this.unparse := unparse;
      this.parseExpr := parseExpr;
      this.importable := importable;
      modified := false;
    }

    /** `_generate_typed_dicts_src(models, basemodel_names, use_qualified_names)` */
    method GenerateTypedDictsSrc(models: Dict<seq<Field>>, names: set<string>, qualified: bool)
      returns (srcs: seq<string>)
      ensures srcs == Sources(stubs, unparse, parseExpr, models, names, qualified)
    {
      srcs := [];
      var i := 0;
      while i < |models|
        invariant 0 <= i <= |models|
        invariant |srcs| == i
        invariant forall k :: 0 <= k < i ==>
                    srcs[k] == TypedDictSource(stubs, unparse, parseExpr, models[k].key, models[k].value, names, qualified)
      {
        var lines := ModelLines(models[i].key, models[i].value, names, qualified);
        srcs := srcs + [Join(lines, "\n")];
        i := i + 1;
      }
    }

    /** One turn of the loop over the models in `_generate_typed_dicts_src`: the lines of that model's TypedDict. */
    method ModelLines(model: string, fields: seq<Field>, names: set<string>, qualified: bool) returns (lines: seq<string>)
      ensures lines == TypedDictLines(stubs, unparse, parseExpr, model, fields, names, qualified)
    {
      lines := [Header(model, qualified)];
      ghost var codes := FieldCodes(stubs, unparse, parseExpr, model, fields, names, qualified);
      if fields == [] {
        lines := lines + ["    pass"];
      } else {
        var j := 0;
        while j < |fields|
          invariant 0 <= j <= |fields|
          invariant lines == [Header(model, qualified)] + FieldLines(fields[..j], codes[..j], qualified)
        {
          var f := fields[j];
          var code := FieldTypeCode(model, f.name, names, qualified);
          var typed := code;
          if f.optional {
            typed := NotRequiredMarker(qualified) + "[" + code + "]";
          }
          var line := "    " + f.name + ": " + typed;
          assert line == FieldLine(fields[j], codes[j], qualified);
          FieldLinesSnoc(fields, codes, qualified, j);
          AppendAssoc([Header(model, qualified)], FieldLines(fields[..j], codes[..j], qualified), [line]);
          lines := lines + [line];
          j := j + 1;
        }
        assert fields[..|fields|] == fields && codes[..|codes|] == codes;
      }
    }

    /** The annotation code of one field in `_generate_typed_dicts_src`: the rewritten annotation, or the any-type. */
    method FieldTypeCode(model: string, field: string, names: set<string>, qualified: bool) returns (code: string)
      ensures code == AnnotationCode(stubs, unparse, parseExpr, model, field, names, qualified)
    {
      var annotation := FieldAnnotation(stubs, model, field);
      if annotation.None? {
        code := AnyType(qualified);
      } else {
        var tree := parseExpr(unparse(annotation.value));
        if tree.None? {
          code := AnyType(qualified);
        } else {
          code := unparse(RewriteTypeAnnotation(tree.value, names));
        }
      }
    }

    /** `_process_stub_file(stub)`: the new text and whether it differs (and was written). */
    method ProcessStubFile(stub: StubFile) returns (changed: bool, newContent: string)
      modifies this`modified
      ensures var models := ModelsOf(if stub.tree.Some? then stub.tree.value else []);
              newContent == AppendMissing(stub.content, Sources(stubs, unparse, parseExpr, models, Keys(models), true))
      ensures changed <==> newContent != stub.content
      ensures modified == (old(modified) || changed)
    {
      var models := ExtractBaseModelsDefinitions(stub.tree);
      var srcs := GenerateTypedDictsSrc(models, Keys(models), true);
      newContent := AppendMissingTypedDicts(stub.content, srcs);
      changed := newContent != stub.content;
      if changed {
        modified := true;
      }
    }

    /** `build_basemodel_to_typeddict_map()` */
    method BuildBasemodelToTypeddictMap() returns (r: Result<Dict<(string, string)>, string>)
      ensures r == TypedDictMap(stubs, root, importable)
    {
      var mapping: Dict<(string, string)> := [];
      var i := 0;
      while i < |stubs|
        invariant 0 <= i <= |stubs|
        invariant TypedDictMap(stubs[..i], root, importable) == Success(mapping)
      {
        var stub := stubs[i];
        TypedDictMapPrefix(stubs, i, root, importable);
        var models := ExtractBaseModelsDefinitions(stub.tree);
        assert models == ModelsOf(if stub.tree.Some? then stub.tree.value else []);
        var modulePath := ModulePathForStub(stub.path, root);
        if modulePath.Failure? {
          TypedDictMapFailureSticks(stubs, i + 1, root, importable);
          return Failure(modulePath.error);
        }
        var imported := ImportModule(modulePath.value, importable);
        if imported.Failure? {
          TypedDictMapFailureSticks(stubs, i + 1, root, importable);
          return Failure(imported.error);
        }
        mapping := MapModels(mapping, models, imported.value);
        i := i + 1;
      }
      assert stubs[..i] == stubs;
      return Success(mapping);
    }
  }

  /** The inner loop of `build_basemodel_to_typeddict_map`: `mapping[model] = (td_name, module_path)` for each model. */
  method MapModels(before: Dict<(string, string)>, models: Dict<seq<Field>>, modulePath: string)
    returns (mapping: Dict<(string, string)>)
    ensures mapping == PutModels(before, models, modulePath)
  {
    mapping := before;
    var j := 0;
    while j < |models|
      invariant 0 <= j <= |models|
      invariant mapping == PutModels(before, models[..j], modulePath)
    {
      assert models[..j + 1][..j] == models[..j];
      mapping := Put(mapping, models[j].key, (models[j].key + "Data", modulePath));
      j := j + 1;
    }
    assert models[..j] == models;
  }

  /** The append loop of `_process_stub_file`. */
  method AppendMissingTypedDicts(content: string, srcs: seq<string>) returns (r: string)
    ensures r == AppendMissing(content, srcs)
  {
    r := RStrip(content);
    var i := 0;
    while i < |srcs|
      invariant 0 <= i <= |srcs|
      invariant r == AppendMissing(content, srcs[..i])
    {
      assert srcs[..i + 1][..i] == srcs[..i];
      if !Contains(content, srcs[i]) {
        r := r + "\n\n" + srcs[i];
      }
      i := i + 1;
    }
    assert srcs[..i] == srcs;
  }

  /**
   * `importlib.import_module(module_path)` as the map builder uses it: an
   * `ImportError` turns the path into `""`; an empty name raises
   * `ValueError`, which is not caught.
   */
  function ImportModule(modulePath: string, importable: string -> bool): (r: Result<string, string>)
    ensures r.Failure? <==> modulePath == ""
    ensures r.Success? ==> r.value == modulePath || r.value == ""
  {
    if modulePath == "" then Failure("Empty module name")
    else if importable(modulePath) then Success(modulePath)
    else Success("")
  }

  /** Every model of one stub mapped to its TypedDict name and module. */
  function PutModels(mapping: Dict<(string, string)>, models: Dict<seq<Field>>, modulePath: string)
    : Dict<(string, string)>
  {
    if models == [] then mapping
    else
      var last := models[|models| - 1];
      Put(PutModels(mapping, models[..|models| - 1], modulePath), last.key, (last.key + "Data", modulePath))
  }

  /** The map `build_basemodel_to_typeddict_map` returns, stub after stub. */
  function TypedDictMap(stubs: seq<StubFile>, root: Option<Path>, importable: string -> bool)
    : Result<Dict<(string, string)>, string>
  {
    if stubs == [] then Success([])
    else AddStub(TypedDictMap(stubs[..|stubs| - 1], root, importable), stubs[|stubs| - 1], root, importable)
  }

  /** One stub's turn: its module path is resolved and imported, then each of its models is mapped. */
  function AddStub(prev: Result<Dict<(string, string)>, string>, stub: StubFile, root: Option<Path>,
                   importable: string -> bool): Result<Dict<(string, string)>, string>
  {
    match prev
    case Failure(e) => Failure(e)
    case Success(mapping) =>
      match ModulePathForStub(stub.path, root)
      case Failure(e) => Failure(e)
      case Success(path) =>
        match ImportModule(path, importable)
        case Failure(e) => Failure(e)
        case Success(imported) =>
          Success(PutModels(mapping, ModelsOf(if stub.tree.Some? then stub.tree.value else []), imported))
  }

  lemma TypedDictMapPrefix(stubs: seq<StubFile>, i: nat, root: Option<Path>, importable: string -> bool)
    requires i < |stubs|
    ensures TypedDictMap(stubs[..i + 1], root, importable) == AddStub(TypedDictMap(stubs[..i], root, importable), stubs[i], root, importable)
  {
    assert stubs[..i + 1][..i] == stubs[..i];
  }

  /** Once a stub fails, the whole map fails with its error. */
  lemma {:induction false} TypedDictMapFailureSticks(stubs: seq<StubFile>, n: nat, root: Option<Path>,
                                                     importable: string -> bool)
    requires n <= |stubs| && TypedDictMap(stubs[..n], root, importable).Failure?
    ensures TypedDictMap(stubs, root, importable) == TypedDictMap(stubs[..n], root, importable)
    decreases |stubs| - n
  {
    if n < |stubs| {
      TypedDictMapPrefix(stubs, n, root, importable);
      TypedDictMapFailureSticks(stubs, n + 1, root, importable);
    } else {
      assert stubs[..n] == stubs;
    }
  }

  /** Every entry maps a model to its own `<Model>Data` name. */
  predicate NamesTypedDicts(mapping: Dict<(string, string)>) {
    forall k :: 0 <= k < |mapping| ==> mapping[k].value.0 == mapping[k].key + "Data"
  }

  lemma PutKeepsNaming(mapping: Dict<(string, string)>, key: string, modulePath: string)
    requires NamesTypedDicts(mapping)
    ensures NamesTypedDicts(Put(mapping, key, (key + "Data", modulePath)))
  {
    var r := Put(mapping, key, (key + "Data", modulePath));
    forall k | 0 <= k < |r| ensures r[k].value.0 == r[k].key + "Data" {
      PutEntry(mapping, key, (key + "Data", modulePath), k);
    }
  }

  /** Each entry after `d[k] = v` is the new value under `k` or an old entry. */
  lemma {:induction false} PutEntry<V>(d: Dict<V>, k: string, v: V, i: nat)
    requires i < |Put(d, k, v)|
    ensures Put(d, k, v)[i] == Entry(k, v) || (i < |d| && Put(d, k, v)[i] == d[i])
  {
    if d != [] && d[0].key != k && i > 0 {
      PutEntry(d[1..], k, v, i - 1);
    }
  }

  lemma {:induction false} PutModelsNaming(mapping: Dict<(string, string)>, models: Dict<seq<Field>>, modulePath: string)
    requires NamesTypedDicts(mapping)
    ensures NamesTypedDicts(PutModels(mapping, models, modulePath))
  {
    if models != [] {
      PutModelsNaming(mapping, models[..|models| - 1], modulePath);
      PutKeepsNaming(PutModels(mapping, models[..|models| - 1], modulePath), models[|models| - 1].key, modulePath);
    }
  }

  /** Every model the map knows is mapped to its `<Model>Data` TypedDict. */
  lemma {:induction false} TypedDictMapNaming(stubs: seq<StubFile>, root: Option<Path>, importable: string -> bool)
    ensures TypedDictMap(stubs, root, importable).Success? ==> NamesTypedDicts(TypedDictMap(stubs, root, importable).value)
  {
    if stubs != [] {
      var stub := stubs[|stubs| - 1];
      TypedDictMapNaming(stubs[..|stubs| - 1], root, importable);
      var prev := TypedDictMap(stubs[..|stubs| - 1], root, importable);
      if prev.Success? {
        var path := ModulePathForStub(stub.path, root);
        if path.Success? && ImportModule(path.value, importable).Success? {
          PutModelsNaming(prev.value, ModelsOf(if stub.tree.Some? then stub.tree.value else []),
                          ImportModule(path.value, importable).value);
        }
      }
    }
  }
}
